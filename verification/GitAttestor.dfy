/**
 The Git scope attestor: from Git's answers to the files of the scope, and from those to the answer
 the runner gets.  Which paths are documentation is a parameter.
 */
module GitAttestor {
  import opened Basics
  import opened Utf
  import opened Scopes
  import opened RunDefs
  import opened PipelineStates
  import opened Validation
  import opened Attestation
  import opened GitParsing

  datatype ReadResult = Bytes(bytes: seq<Byte>) | Missing | ReadFailed

  /** Everything Git and the file system answer during one attestation. */
  datatype GitView = GitView(
    branch: string, baseOid: string, headOid: string, mergeBaseOid: string,
    committed: Text, porcelain: Text, read: Path -> ReadResult,
    confirmedBranch: string, confirmedBaseOid: string, confirmedHeadOid: string, confirmedPorcelain: Text)

  datatype GitScope = GitScope(view: GitView, mergeBaseOid: string, files: seq<File>)

  function ObserveRepositoryFile(read: Path -> ReadResult, o: Observation): Option<File> {
    match (o.action, read(o.path))
    case (ExpectPresent, Bytes(bytes)) => Some(Present(o.path, bytes))
    case (ExpectAbsent, Missing) => Some(Absent(o.path))
    case _ => None
  }

  /** All paths are read in order; one failure fails the whole scope. */
  method ObserveFiles(read: Path -> ReadResult, observations: seq<Observation>) returns (files: Option<seq<File>>)
    ensures files.Some? <==> forall o <- observations :: ObserveRepositoryFile(read, o).Some?
    ensures files.Some? ==>
      && |files.value| == |observations|
      && forall i :: 0 <= i < |observations| ==> Some(files.value[i]) == ObserveRepositoryFile(read, observations[i])
  {
    var found: seq<File> := [];
    for i := 0 to |observations|
      invariant |found| == i && forall k :: 0 <= k < i ==> Some(found[k]) == ObserveRepositoryFile(read, observations[k])
    {
      var file := ObserveRepositoryFile(read, observations[i]);
      if file.None? {
        return None;
      }
      found := found + [file.value];
    }
    files := Some(found);
  }

  /** What the two listings say of a path, if anything. */
  ghost predicate Says(view: GitView, p: Path, action: PathAction) {
    exists changes: seq<Change>, entries: seq<StatusEntry> ::
      && IsListing(view.porcelain, entries)
      && (if view.headOid == view.baseOid then changes == [] else IsChangeListing(view.committed, changes))
      && Latest(ObservedChanges(changes) + Observed(entries), p) == Some(action)
  }

  /** Both listings can be read; without commits of its own the feature has no committed listing. */
  ghost predicate Listed(view: GitView) {
    && (exists entries: seq<StatusEntry> :: IsListing(view.porcelain, entries))
    && (view.headOid == view.baseOid || exists changes: seq<Change> :: IsChangeListing(view.committed, changes))
  }

  /** Every listed path is there, or gone, as it was listed. */
  ghost predicate AllRead(view: GitView) {
    forall p, action :: Says(view, p, action) ==> ObserveRepositoryFile(view.read, Observation(p, action)).Some?
  }

  /** When a path is listed as deleted, HEAD and the status listing stood still. */
  ghost predicate AbsenceConfirmed(view: GitView) {
    (exists p :: Says(view, p, ExpectAbsent)) ==> view.confirmedHeadOid == view.headOid && view.confirmedPorcelain == view.porcelain
  }

  lemma ReadsOfObservations(view: GitView, observations: seq<Observation>)
    requires forall p, action :: Observation(p, action) in observations <==> Says(view, p, action)
    ensures AllRead(view) <==> forall o <- observations :: ObserveRepositoryFile(view.read, o).Some?
    ensures (exists p :: Says(view, p, ExpectAbsent)) <==> exists o <- observations :: o.action.ExpectAbsent?
  {
    hide Says, ObserveRepositoryFile;
    forall o | o in observations ensures Says(view, o.path, o.action) {
      assert o == Observation(o.path, o.action);
    }
    if p :| Says(view, p, ExpectAbsent) {
      assert Observation(p, ExpectAbsent) in observations;
    }
  }

  /**
   The scope holds exactly the listed paths in path order; each is the bytes that were read, or a
   tombstone for a path that was listed as deleted, found missing, and still listed so afterwards.
   */
  method ObserveGitScope(view: GitView) returns (scope: Option<GitScope>)
    ensures scope.Some? <==> Listed(view) && AllRead(view) && AbsenceConfirmed(view)
    ensures scope.Some? ==> scope.value.view == view && Sorted(scope.value.files)
    ensures scope.Some? ==> scope.value.mergeBaseOid == if view.headOid == view.baseOid then view.baseOid else view.mergeBaseOid
    ensures scope.Some? ==> forall p, bytes ::
      Present(p, bytes) in scope.value.files <==> Says(view, p, ExpectPresent) && view.read(p) == Bytes(bytes)
    ensures scope.Some? ==> forall p ::
      Absent(p) in scope.value.files <==> Says(view, p, ExpectAbsent) && view.read(p).Missing?
  {
    hide IsListing, IsChangeListing, Latest, Observed, ObservedChanges, Less, Says, AllRead;
    var committed: seq<Observation> := [];
    if view.headOid != view.baseOid {
      var parsed := ParseCommittedPaths(view.committed);
      if parsed.None? {
        return None;
      }
      committed := parsed.value;
    }
    var dirty := ParseChangedPaths(view.porcelain);
    if dirty.None? {
      return None;
    }
    var observations := MergePathObservations(committed, dirty.value);
    MergedSays(view, committed, dirty.value, observations);
    ReadsOfObservations(view, observations);
    var files := ObserveFiles(view.read, observations);
    if files.None? {
      return None;
    }
    if (exists o <- observations :: o.action.ExpectAbsent?)
       && (view.confirmedHeadOid != view.headOid || view.confirmedPorcelain != view.porcelain) {
      return None;
    }
    FilesOfObservations(view.read, observations, files.value);
    scope := Some(GitScope(view, if view.headOid == view.baseOid then view.baseOid else view.mergeBaseOid, files.value));
  }

  lemma MergedSays(view: GitView, committed: seq<Observation>, dirty: seq<Observation>, merged: seq<Observation>)
    requires forall o :: o in merged <==> Latest(committed + dirty, o.path) == Some(o.action)
    requires exists entries: seq<StatusEntry> :: IsListing(view.porcelain, entries)
    requires forall entries: seq<StatusEntry> :: IsListing(view.porcelain, entries) ==> Observed(entries) == dirty
    requires view.headOid == view.baseOid ==> committed == []
    requires view.headOid != view.baseOid ==> exists changes: seq<Change> :: IsChangeListing(view.committed, changes)
    requires view.headOid != view.baseOid ==>
      forall changes: seq<Change> :: IsChangeListing(view.committed, changes) ==> ObservedChanges(changes) == committed
    ensures forall p, action :: Observation(p, action) in merged <==> Says(view, p, action)
  {
    hide Terminated, RenderAll, UniqueEntries, IsChangeListing, Latest;
    assert ObservedChanges([]) == [];
    hide ObservedChanges, Observed;
    var entries: seq<StatusEntry> :| IsListing(view.porcelain, entries);
    var changes: seq<Change> := [];
    if view.headOid != view.baseOid {
      changes :| IsChangeListing(view.committed, changes);
    }
    assert ObservedChanges(changes) == committed && Observed(entries) == dirty;
    forall p, action
      ensures Observation(p, action) in merged <==> Says(view, p, action)
    {
      assert Observation(p, action) in merged <==> Latest(committed + dirty, p) == Some(action);
      if Says(view, p, action) {
        var others: seq<Change>, listed: seq<StatusEntry> :|
          && IsListing(view.porcelain, listed)
          && (if view.headOid == view.baseOid then others == [] else IsChangeListing(view.committed, others))
          && Latest(ObservedChanges(others) + Observed(listed), p) == Some(action);
        assert Observed(listed) == dirty && ObservedChanges(others) == committed;
      }
    }
  }

  lemma FilesOfObservations(read: Path -> ReadResult, observations: seq<Observation>, files: seq<File>)
    requires Ascending(observations) && |files| == |observations|
    requires forall i :: 0 <= i < |observations| ==> Some(files[i]) == ObserveRepositoryFile(read, observations[i])
    ensures Sorted(files)
    ensures forall p, bytes :: Present(p, bytes) in files <==> Observation(p, ExpectPresent) in observations && read(p) == Bytes(bytes)
    ensures forall p :: Absent(p) in files <==> Observation(p, ExpectAbsent) in observations && read(p).Missing?
  {
    hide Less;
    assert forall i :: 0 <= i < |files| ==> files[i].path == observations[i].path;
    forall p, bytes
      ensures Present(p, bytes) in files <==> Observation(p, ExpectPresent) in observations && read(p) == Bytes(bytes)
    {
      if Observation(p, ExpectPresent) in observations && read(p) == Bytes(bytes) {
        var i :| 0 <= i < |observations| && observations[i] == Observation(p, ExpectPresent);
        assert files[i] == Present(p, bytes);
      }
    }
    forall p
      ensures Absent(p) in files <==> Observation(p, ExpectAbsent) in observations && read(p).Missing?
    {
      if Observation(p, ExpectAbsent) in observations && read(p).Missing? {
        var i :| 0 <= i < |observations| && observations[i] == Observation(p, ExpectAbsent);
        assert files[i] == Absent(p);
      }
    }
  }

  // ----- The answer -----

  function DocPaths(files: seq<File>, isDoc: Path -> bool): set<Path> {
    set f | f in files && isDoc(f.path) :: f.path
  }

  /** The files under review: everything observed that is not documentation. */
  function ReviewedFiles(files: seq<File>, isDoc: Path -> bool): (kept: seq<File>)
    ensures forall f :: f in kept <==> f in files && !isDoc(f.path)
  {
    Keep(files, DocPaths(files, isDoc), false)
  }

  predicate AllValid(files: seq<File>) {
    forall f <- files :: ValidPath(f.path)
  }

  /** A path that is not canonical makes the attempt fail. */
  function CheckpointForObservedScope(request: ScopeRequest, scope: GitScope, isDoc: Path -> bool): Option<Checkpoint> {
    var reviewed := ReviewedFiles(scope.files, isDoc);
    var id := request.identity;
    if !AllValid(reviewed) then None
    else Some(Checkpoint(FINAL_SCOPE_RECEIPT_VERSION, id.storyId, id.runId, id.runDefId, id.runDefDigest,
                         scope.view.branch, scope.view.baseOid, ScopeOf(Sort(reviewed)), request.qualityGate))
  }

  function MatchingBaseResult(checkpoint: Checkpoint, scope: GitScope, isDoc: Path -> bool): ScopeResult {
    if !AllValid(scope.files) then Rejected
    else
      match Compare(checkpoint.reviewed, Sort(scope.files), DocPaths(scope.files, isDoc))
      case ReviewInvalidated(paths) => ReviewScopeChanged(paths)
      case Attested(docs, whole) => FinalReceipted(Receipt(checkpoint, docs, whole))
  }

  /** A base that moved is reported only when it is part of the feature and the observation stood still. */
  function StaleBaseResult(previousBaseOid: string, scope: GitScope): ScopeResult {
    var v := scope.view;
    if scope.mergeBaseOid != v.baseOid then Rejected
    else if v.confirmedBranch != v.branch || v.confirmedBaseOid != v.baseOid
            || v.confirmedHeadOid != v.headOid || v.confirmedPorcelain != v.porcelain then Rejected
    else ReviewBaseStale(previousBaseOid, v.baseOid)
  }

  function FinalScopeResult(request: ScopeRequest, scope: GitScope, isDoc: Path -> bool): ScopeResult
    requires request.FinalRequest?
  {
    var checkpoint := if request.checkpoint.Some? then request.checkpoint else CheckpointForObservedScope(request, scope, isDoc);
    if checkpoint.None? then Rejected
    else if checkpoint.value.branch != scope.view.branch then Rejected
    else if checkpoint.value.baseOid == scope.view.baseOid then MatchingBaseResult(checkpoint.value, scope, isDoc)
    else StaleBaseResult(checkpoint.value.baseOid, scope)
  }

  function AttestScope(request: ScopeRequest, scope: Option<GitScope>, isDoc: Path -> bool): ScopeResult {
    if scope.None? then Rejected
    else if request.FinalRequest? then FinalScopeResult(request, scope.value, isDoc)
    else
      match CheckpointForObservedScope(request, scope.value, isDoc)
      case None => Rejected
      case Some(checkpoint) => ReviewCheckpointed(checkpoint)
  }

  method AttestObservedScope(view: GitView, request: ScopeRequest, isDoc: Path -> bool) returns (result: ScopeResult, scope: Option<GitScope>)
    ensures result == AttestScope(request, scope, isDoc)
    ensures scope.Some? ==> Sorted(scope.value.files) && scope.value.view == view
  {
    hide Less, Says, AttestScope;
    scope := ObserveGitScope(view);
    result := AttestScope(request, scope, isDoc);
  }

  // ----- What the answer is worth -----

  /** A branch has a name and a base is an object id. */
  predicate Readable(view: GitView) {
    NonBlank(view.branch) && IsOid(view.baseOid)
  }

  lemma SortedIsCanonical(files: seq<File>)
    requires Sorted(files)
    ensures Sort(files) == files
  {
    hide Less;
    UniqueBySorting(files);
    SortSorts(files);
    SortedIsUnique(Sort(files), files);
  }

  lemma UniqueBySorting(files: seq<File>)
    requires Sorted(files)
    ensures UniquePaths(files)
  {
    forall i, j | 0 <= i < j < |files| ensures files[i].path != files[j].path {
      LessIsTotal(files[i].path, files[j].path);
    }
  }

  lemma ObservedCheckpoint(request: ScopeRequest, scope: GitScope, isDoc: Path -> bool)
    requires Sorted(scope.files) && WellFormedRequest(request) && Readable(scope.view)
    requires CheckpointForObservedScope(request, scope, isDoc).Some?
    ensures var c := CheckpointForObservedScope(request, scope, isDoc).value;
      ValidCheckpoint(c) && c.qualityGate == request.qualityGate && c.reviewed == ScopeOf(ReviewedFiles(scope.files, isDoc))
  {
    hide Less, NonBlank, IsOid, ValidPath, Keep;
    var reviewed := ReviewedFiles(scope.files, isDoc);
    KeepSorted(scope.files, DocPaths(scope.files, isDoc), false);
    SortedIsCanonical(reviewed);
    SortedFilesHaveCanonicalPaths(reviewed);
  }

  lemma ReceiptIsValid(c: Checkpoint, scope: GitScope, isDoc: Path -> bool)
    requires ValidCheckpoint(c) && Sorted(scope.files) && MatchingBaseResult(c, scope, isDoc).FinalReceipted?
    ensures var r := MatchingBaseResult(c, scope, isDoc).receipt;
      r.checkpoint == c && ValidReceipt(r) && Disjoint(c.reviewed, r.docs)
  {
    hide Less, ValidCheckpoint, ValidPath, Keep, Disjoint;
    var docs := DocPaths(scope.files, isDoc);
    SortedIsCanonical(scope.files);
    AttestedPathsPartition(c.reviewed, scope.files, docs);
    KeepSorted(scope.files, docs, true);
    SortedFilesHaveCanonicalPaths(Keep(scope.files, docs, true));
  }

  /** The Git attestor keeps every promise the runner relies on. */
  lemma GitAttestorIsHonest(request: ScopeRequest, scope: Option<GitScope>, isDoc: Path -> bool)
    requires WellFormedRequest(request) && (scope.Some? ==> Sorted(scope.value.files) && Readable(scope.value.view))
    ensures Honest(request, AttestScope(request, scope, isDoc))
  {
    hide Less, ValidCheckpoint, ValidReceipt, Disjoint, MatchingBaseResult, CheckpointForObservedScope, Sorted;
    if scope.Some? {
      if CheckpointForObservedScope(request, scope.value, isDoc).Some? {
        ObservedCheckpoint(request, scope.value, isDoc);
      }
      if request.FinalRequest? {
        var c := if request.checkpoint.Some? then request.checkpoint else CheckpointForObservedScope(request, scope.value, isDoc);
        if c.Some? && MatchingBaseResult(c.value, scope.value, isDoc).FinalReceipted? {
          ReceiptIsValid(c.value, scope.value, isDoc);
        }
      }
    }
  }

  /** A stale-base answer about a real checkpoint is one the runner accepts. */
  lemma StaleBaseIsCorrelated(request: ScopeRequest, scope: GitScope, isDoc: Path -> bool)
    requires request.FinalRequest? && request.checkpoint.Some? && ValidCheckpoint(request.checkpoint.value) && Readable(scope.view)
    requires AttestScope(request, Some(scope), isDoc).ReviewBaseStale?
    ensures var answer := AttestScope(request, Some(scope), isDoc);
            IsValidStaleBase(answer.previousBaseOid, answer.currentBaseOid, request.checkpoint)
  {
    hide IsOid;
  }

  /**
   A review is confirmed by a later observation exactly when branch and base are the same, all paths
   are canonical, and the files that are not documentation are the reviewed ones.
   */
  lemma ConfirmedIffReviewedFilesUnchanged(review: ScopeRequest, final: ScopeRequest, earlier: GitScope, now: GitScope, isDoc: Path -> bool)
    requires review.ReviewRequest? && Sorted(earlier.files) && Sorted(now.files)
    requires AttestScope(review, Some(earlier), isDoc).ReviewCheckpointed?
    requires final.FinalRequest? && final.checkpoint == Some(AttestScope(review, Some(earlier), isDoc).checkpoint)
    ensures AttestScope(final, Some(now), isDoc).FinalReceipted? <==>
      && now.view.branch == earlier.view.branch && now.view.baseOid == earlier.view.baseOid && AllValid(now.files)
      && ReviewedFiles(now.files, isDoc) == ReviewedFiles(earlier.files, isDoc)
  {
    hide Less, ValidPath, Keep, Compare;
    var reviewed := ReviewedFiles(earlier.files, isDoc);
    KeepSorted(earlier.files, DocPaths(earlier.files, isDoc), false);
    SortedIsCanonical(reviewed);
    SortedIsCanonical(now.files);
    AttestsIffReviewedUnchanged(reviewed, now.files, DocPaths(now.files, isDoc));
  }

  /** When the files are what changed, at least one changed path is named. */
  lemma ChangedScopeNamesAPath(review: ScopeRequest, final: ScopeRequest, earlier: GitScope, now: GitScope, isDoc: Path -> bool)
    requires review.ReviewRequest? && AttestScope(review, Some(earlier), isDoc).ReviewCheckpointed?
    requires final.FinalRequest? && final.checkpoint == Some(AttestScope(review, Some(earlier), isDoc).checkpoint)
    requires AttestScope(final, Some(now), isDoc).ReviewScopeChanged?
    ensures AttestScope(final, Some(now), isDoc).changedPaths != []
  {
    hide Less, ValidPath, Keep;
    InvalidationNamesAPath(final.checkpoint.value.reviewed, Sort(now.files), DocPaths(now.files, isDoc));
  }

  /** Re-attesting a receipt reproduces it exactly when branch, base and the whole tree are unchanged. */
  lemma ReattestationReproducesTheReceipt(first: ScopeRequest, again: ScopeRequest, earlier: GitScope, now: GitScope, isDoc: Path -> bool)
    requires first.FinalRequest? && again.FinalRequest? && Sorted(earlier.files) && Sorted(now.files)
    requires AttestScope(first, Some(earlier), isDoc).FinalReceipted?
    requires again.checkpoint == Some(AttestScope(first, Some(earlier), isDoc).receipt.checkpoint)
    ensures AttestScope(again, Some(now), isDoc) == AttestScope(first, Some(earlier), isDoc) <==>
      now.view.branch == earlier.view.branch && now.view.baseOid == earlier.view.baseOid && now.files == earlier.files
  {
    hide Less, ValidPath, Keep, Compare, CheckpointForObservedScope;
    SortedIsCanonical(earlier.files);
    SortedIsCanonical(now.files);
    var c := again.checkpoint.value;
    CheckpointOfReceipt(first, earlier, isDoc);
    var a, b := Compare(c.reviewed, earlier.files, DocPaths(earlier.files, isDoc)), Compare(c.reviewed, now.files, DocPaths(now.files, isDoc));
    if a.Attested? && b.Attested? {
      AttestationDeterminesTree(c.reviewed, earlier.files, DocPaths(earlier.files, isDoc), now.files, DocPaths(now.files, isDoc));
    }
  }

  lemma CheckpointOfReceipt(request: ScopeRequest, scope: GitScope, isDoc: Path -> bool)
    requires request.FinalRequest? && AttestScope(request, Some(scope), isDoc).FinalReceipted?
    ensures var r := AttestScope(request, Some(scope), isDoc).receipt;
      && r.checkpoint.branch == scope.view.branch && r.checkpoint.baseOid == scope.view.baseOid
      && MatchingBaseResult(r.checkpoint, scope, isDoc) == FinalReceipted(r)
  {
    hide Compare, AllValid;
  }

  // ----- Which answer is given -----

  /** The scope of exactly the observed files that are not documentation, in path order. */
  ghost predicate IsReviewedScope(reviewed: RepositoryScope, files: seq<File>, isDoc: Path -> bool) {
    exists kept :: Sorted(kept) && (forall f :: f in kept <==> f in files && !isDoc(f.path)) && reviewed == ScopeOf(kept)
  }

  /** The checkpoint an observation gives for a request: who asked, where it was observed, and what is under review. */
  ghost predicate IsCheckpointFor(c: Checkpoint, request: ScopeRequest, scope: GitScope, isDoc: Path -> bool) {
    && c.version == 1
    && c.storyId == request.identity.storyId && c.runId == request.identity.runId
    && c.runDefId == request.identity.runDefId && c.runDefDigest == request.identity.runDefDigest
    && c.branch == scope.view.branch && c.baseOid == scope.view.baseOid
    && c.qualityGate == request.qualityGate && IsReviewedScope(c.reviewed, scope.files, isDoc)
  }

  lemma CheckpointIff(request: ScopeRequest, scope: GitScope, isDoc: Path -> bool, c: Checkpoint)
    requires Sorted(scope.files)
    ensures CheckpointForObservedScope(request, scope, isDoc) == Some(c) <==>
      (forall f :: f in scope.files && !isDoc(f.path) ==> ValidPath(f.path)) && IsCheckpointFor(c, request, scope, isDoc)
  {
    hide ValidPath, Sorted, Sort, ScopeOf, ReviewedFiles, IsReviewedScope;
    ReviewedScopeIff(c.reviewed, scope.files, isDoc);
    assert AllValid(ReviewedFiles(scope.files, isDoc)) <==> forall f :: f in scope.files && !isDoc(f.path) ==> ValidPath(f.path);
  }

  lemma ReviewedScopeIff(reviewed: RepositoryScope, files: seq<File>, isDoc: Path -> bool)
    requires Sorted(files)
    ensures IsReviewedScope(reviewed, files, isDoc) <==> reviewed == ScopeOf(Sort(ReviewedFiles(files, isDoc)))
  {
    var kept := ReviewedFiles(files, isDoc);
    KeepSorted(files, DocPaths(files, isDoc), false);
    hide Less, Keep, ScopeOf;
    SortedIsCanonical(kept);
    forall other | Sorted(other) && forall f :: f in other <==> f in files && !isDoc(f.path)
      ensures other == kept
    {
      SortedIsUnique(other, kept);
    }
  }

  /** A review is answered with its checkpoint exactly when the paths under review are canonical. */
  lemma ReviewAnsweredIff(request: ScopeRequest, scope: GitScope, isDoc: Path -> bool, c: Checkpoint)
    requires request.ReviewRequest? && Sorted(scope.files)
    ensures AttestScope(request, Some(scope), isDoc) == ReviewCheckpointed(c) <==>
      (forall f :: f in scope.files && !isDoc(f.path) ==> ValidPath(f.path)) && IsCheckpointFor(c, request, scope, isDoc)
    ensures AttestScope(request, Some(scope), isDoc).ReviewCheckpointed? || AttestScope(request, Some(scope), isDoc).Rejected?
  {
    hide Less, ValidPath, IsCheckpointFor, CheckpointForObservedScope;
    CheckpointIff(request, scope, isDoc, c);
  }

  /** A base that moved is reported exactly when it did, on the same branch, within the feature, and nothing else moved meanwhile. */
  lemma StaleBaseIff(request: ScopeRequest, scope: GitScope, isDoc: Path -> bool, previous: string, current: string)
    requires request.FinalRequest? && request.checkpoint.Some?
    ensures AttestScope(request, Some(scope), isDoc) == ReviewBaseStale(previous, current) <==>
      var c, v := request.checkpoint.value, scope.view;
      && c.branch == v.branch && c.baseOid == previous && v.baseOid == current && previous != current
      && scope.mergeBaseOid == v.baseOid && v.confirmedBranch == v.branch && v.confirmedBaseOid == v.baseOid
      && v.confirmedHeadOid == v.headOid && v.confirmedPorcelain == v.porcelain
  {
    hide Compare, AllValid;
  }

  /** The files changed: branch and base stand, all paths are canonical, and what is under review is not what was reviewed. */
  lemma ScopeChangedIff(request: ScopeRequest, scope: GitScope, isDoc: Path -> bool, reviewedFiles: seq<File>)
    requires request.FinalRequest? && request.checkpoint.Some? && Sorted(scope.files)
    requires request.checkpoint.value.reviewed == ScopeOf(reviewedFiles)
    ensures AttestScope(request, Some(scope), isDoc).ReviewScopeChanged? <==>
      && request.checkpoint.value.branch == scope.view.branch && request.checkpoint.value.baseOid == scope.view.baseOid
      && (forall f :: f in scope.files ==> ValidPath(f.path)) && ReviewedFiles(scope.files, isDoc) != reviewedFiles
  {
    hide Less, ValidPath, Keep, Compare;
    SortedIsCanonical(scope.files);
    AttestsIffReviewedUnchanged(reviewedFiles, scope.files, DocPaths(scope.files, isDoc));
  }

  /** Without a review everything observed is receipted, under a checkpoint made on the spot, exactly when all paths are canonical. */
  lemma UnreviewedIsReceiptedIff(request: ScopeRequest, scope: GitScope, isDoc: Path -> bool)
    requires request.FinalRequest? && request.checkpoint.None? && Sorted(scope.files)
    ensures var answer := AttestScope(request, Some(scope), isDoc);
      && (answer.FinalReceipted? <==> forall f :: f in scope.files ==> ValidPath(f.path))
      && (answer.FinalReceipted? ==> IsCheckpointFor(answer.receipt.checkpoint, request, scope, isDoc))
      && (answer.FinalReceipted? || answer.Rejected?)
  {
    hide Less, ValidPath, Keep, Compare, IsCheckpointFor;
    var c := CheckpointForObservedScope(request, scope, isDoc);
    if c.Some? {
      CheckpointIff(request, scope, isDoc, c.value);
      KeepSorted(scope.files, DocPaths(scope.files, isDoc), false);
      SortedIsCanonical(ReviewedFiles(scope.files, isDoc));
      SortedIsCanonical(scope.files);
      AttestsIffReviewedUnchanged(ReviewedFiles(scope.files, isDoc), scope.files, DocPaths(scope.files, isDoc));
    }
  }
}

/** Reading the two Git listings, and merging what they say about paths. */
module GitParsing {
  import opened Basics
  import opened Utf
  import opened Scopes

  datatype PathAction = ExpectPresent | ExpectAbsent

  datatype Observation = Observation(path: Path, action: PathAction)

  // ----- Records that end in NUL -----

  const NUL: CodeUnit := 0

  /** The pieces between NUL characters, as `split("\0")` gives them. */
  function SplitNul(s: Text): (r: seq<Text>)
    ensures r != []
  {
    if s == [] then [[]]
    else
      var rest := SplitNul(s[1..]);
      if s[0] == NUL then [[]] + rest else [[s[0]] + rest[0]] + rest[1..]
  }

  function Terminated(records: seq<Text>): Text {
    if records == [] then [] else records[0] + [NUL] + Terminated(records[1..])
  }

  lemma {:induction false} SplitAfterRecord(record: Text, rest: Text)
    requires NUL !in record
    ensures SplitNul(record + [NUL] + rest) == [record] + SplitNul(rest)
    decreases |record|
  {
    var s := record + [NUL] + rest;
    if record == [] {
      assert s[1..] == rest;
    } else {
      assert s[1..] == record[1..] + [NUL] + rest;
      SplitAfterRecord(record[1..], rest);
      assert record == [record[0]] + record[1..];
    }
  }

  lemma {:induction false} SplitOfTerminated(records: seq<Text>)
    requires forall r <- records :: NUL !in r
    ensures SplitNul(Terminated(records)) == records + [[]]
    decreases |records|
  {
    if records != [] {
      assert records == [records[0]] + records[1..];
      SplitOfTerminated(records[1..]);
      SplitAfterRecord(records[0], Terminated(records[1..]));
    }
  }

  /** A character in front of the pieces joins the first of them. */
  lemma TerminatedGrows(c: CodeUnit, pieces: seq<Text>)
    requires pieces != []
    ensures var r := [[c] + pieces[0]] + pieces[1..];
            Terminated(r[..|r| - 1]) + r[|r| - 1] == [c] + (Terminated(pieces[..|pieces| - 1]) + pieces[|pieces| - 1])
  {
    if |pieces| > 1 {
      var middle := pieces[1..|pieces| - 1];
      assert ([[c] + pieces[0]] + pieces[1..])[..|pieces| - 1] == [[c] + pieces[0]] + middle;
      assert pieces[..|pieces| - 1] == [pieces[0]] + middle;
    }
  }

  lemma {:induction false} TerminatedOfSplit(s: Text)
    ensures var r := SplitNul(s); s == Terminated(r[..|r| - 1]) + r[|r| - 1] && forall x <- r :: NUL !in x
    decreases |s|
  {
    if s != [] {
      TerminatedOfSplit(s[1..]);
      var rest := SplitNul(s[1..]);
      assert s == [s[0]] + s[1..];
      if s[0] == NUL {
        assert ([[]] + rest)[..|rest|] == [[]] + rest[..|rest| - 1];
      } else {
        hide SplitNul;
        TerminatedGrows(s[0], rest);
      }
    }
  }

  // ----- Working-tree status entries -----

  const SPACE: CodeUnit := 0x20
  const CHAR_A: CodeUnit := 0x41
  const CHAR_D: CodeUnit := 0x44
  const CHAR_M: CodeUnit := 0x4D
  const CHAR_QUERY: CodeUnit := 0x3F

  datatype StatusEntry = StatusEntry(x: CodeUnit, y: CodeUnit, path: Path)

  function StatusAction(x: CodeUnit, y: CodeUnit): Option<PathAction> {
    if (x, y) in {(SPACE, CHAR_M), (CHAR_M, SPACE), (CHAR_M, CHAR_M), (CHAR_QUERY, CHAR_QUERY), (CHAR_A, SPACE), (CHAR_A, CHAR_M)}
    then Some(ExpectPresent)
    else if (x, y) in {(CHAR_D, SPACE), (SPACE, CHAR_D)} then Some(ExpectAbsent)
    else None
  }

  function Render(e: StatusEntry): Text {
    [e.x, e.y, SPACE] + e.path
  }

  function RenderAll(entries: seq<StatusEntry>): (r: seq<Text>)
    ensures |r| == |entries| && forall i :: 0 <= i < |r| ==> r[i] == Render(entries[i])
  {
    seq(|entries|, i requires 0 <= i < |entries| => Render(entries[i]))
  }

  ghost predicate Supported(e: StatusEntry) {
    StatusAction(e.x, e.y).Some? && e.path != [] && NUL !in e.path
  }

  predicate IsPipelinePath(p: Path) {
    StartsWith(p, [0x2E, 0x70, 0x69, 0x2F, 0x70, 0x69, 0x70, 0x65, 0x6C, 0x69, 0x6E, 0x65, 0x2F])
  }

  /** The observations of the entries, the pipeline's own files left out. */
  function Observed(entries: seq<StatusEntry>): seq<Observation>
    requires forall e <- entries :: StatusAction(e.x, e.y).Some?
  {
    if entries == [] then []
    else
      var last := entries[|entries| - 1];
      Observed(entries[..|entries| - 1])
      + (if IsPipelinePath(last.path) then [] else [Observation(last.path, StatusAction(last.x, last.y).value)])
  }

  ghost predicate UniqueEntries(entries: seq<StatusEntry>) {
    forall i, j :: 0 <= i < j < |entries| ==> entries[i].path != entries[j].path
  }

  /** The status listing of these entries. */
  ghost predicate IsListing(porcelain: Text, entries: seq<StatusEntry>) {
    porcelain == Terminated(RenderAll(entries)) && (forall e <- entries :: Supported(e)) && UniqueEntries(entries)
  }

  /** A listing determines its entries. */
  lemma ListingDeterminesEntries(porcelain: Text, entries: seq<StatusEntry>)
    requires IsListing(porcelain, entries)
    ensures SplitNul(porcelain) == RenderAll(entries) + [[]]
  {
    var records := RenderAll(entries);
    forall r | r in records ensures NUL !in r {
      var i :| 0 <= i < |records| && records[i] == r;
      assert Supported(entries[i]);
      assert SPACE != NUL && entries[i].x != NUL && entries[i].y != NUL;
    }
    SplitOfTerminated(records);
  }

  predicate IsEntryRecord(record: Text) {
    |record| >= 4 && record[2] == SPACE && StatusAction(record[0], record[1]).Some?
  }

  function EntryOfRecord(record: Text): StatusEntry
    requires |record| >= 4
  {
    StatusEntry(record[0], record[1], record[3..])
  }

  lemma RenderInverts(record: Text)
    requires IsEntryRecord(record)
    ensures Render(EntryOfRecord(record)) == record
  {
  }

  lemma ObservedNothing()
    ensures Observed([]) == [] && UniqueEntries([])
  {
  }

  lemma ObservedStep(entries: seq<StatusEntry>, e: StatusEntry)
    requires UniqueEntries(entries) && (forall x <- entries :: StatusAction(x.x, x.y).Some?) && StatusAction(e.x, e.y).Some?
    requires forall k :: 0 <= k < |entries| ==> entries[k].path != e.path
    ensures UniqueEntries(entries + [e]) && forall x <- entries + [e] :: StatusAction(x.x, x.y).Some?
    ensures Observed(entries + [e])
            == Observed(entries) + if IsPipelinePath(e.path) then [] else [Observation(e.path, StatusAction(e.x, e.y).value)]
  {
    hide IsPipelinePath, StatusAction;
    assert (entries + [e])[..|entries|] == entries;
  }

  /** Whatever the listing, parsing succeeds exactly on listings of entries, and returns their observations. */
  method ParseChangedPaths(porcelain: Text) returns (r: Option<seq<Observation>>)
    ensures r.Some? <==> exists entries: seq<StatusEntry> :: IsListing(porcelain, entries)
    ensures forall entries: seq<StatusEntry> :: IsListing(porcelain, entries) ==> r == Some(Observed(entries))
  {
    hide IsListing, Terminated, SplitNul, RenderAll, Observed, UniqueEntries, StatusAction;
    var pieces := SplitNul(porcelain);
    var records := pieces[..|pieces| - 1];
    TerminatedOfSplit(porcelain);
    ghost var entries: seq<StatusEntry> := [];
    var paths: seq<Observation> := [];
    var seen: set<Path> := {};
    ObservedNothing();
    if pieces[|pieces| - 1] != [] {
      NoListing(porcelain, |records|);
      return None;
    }
    for i := 0 to |records|
      invariant |entries| == i && forall k :: 0 <= k < i ==> IsEntryRecord(records[k]) && entries[k] == EntryOfRecord(records[k])
      invariant UniqueEntries(entries) && forall e <- entries :: StatusAction(e.x, e.y).Some?
      invariant forall p :: p in seen <==> exists k :: 0 <= k < i && entries[k].path == p
      invariant paths == Observed(entries)
    {
      var record := records[i];
      if |record| < 4 || record[2] != SPACE || StatusAction(record[0], record[1]).None? || record[3..] in seen {
        NoListing(porcelain, i);
        return None;
      }
      var path := record[3..];
      seen := seen + {path};
      ghost var extended := entries + [EntryOfRecord(record)];
      ObservedStep(entries, EntryOfRecord(record));
      if !IsPipelinePath(path) {
        paths := paths + [Observation(path, StatusAction(record[0], record[1]).value)];
      }
      entries := extended;
    }
    ParsedListing(porcelain, records, entries);
    r := Some(paths);
  }

  /** What a listing splits into. */
  lemma ListingPieces(porcelain: Text, entries: seq<StatusEntry>)
    requires IsListing(porcelain, entries)
    ensures var pieces := SplitNul(porcelain);
      && pieces[|pieces| - 1] == []
      && (forall i :: 0 <= i < |pieces| - 1 ==> IsEntryRecord(pieces[i]))
      && forall k, i :: 0 <= k < i < |pieces| - 1 ==> pieces[k][3..] != pieces[i][3..]
  {
    ListingDeterminesEntries(porcelain, entries);
    forall i | 0 <= i < |entries|
      ensures IsEntryRecord(Render(entries[i])) && Render(entries[i])[3..] == entries[i].path
    {
      assert Supported(entries[i]);
    }
  }

  /** A stream with a bad or repeated record is the listing of no entries. */
  lemma NoListing(porcelain: Text, i: nat)
    requires i < |SplitNul(porcelain)|
    requires var pieces := SplitNul(porcelain);
      if i == |pieces| - 1 then pieces[i] != []
      else !IsEntryRecord(pieces[i]) || exists k :: 0 <= k < i && |pieces[k]| >= 4 && pieces[k][3..] == pieces[i][3..]
    ensures forall entries: seq<StatusEntry> :: !IsListing(porcelain, entries)
  {
    forall entries: seq<StatusEntry> ensures !IsListing(porcelain, entries) {
      if IsListing(porcelain, entries) {
        ListingPieces(porcelain, entries);
      }
    }
  }

  lemma ParsedListing(porcelain: Text, records: seq<Text>, entries: seq<StatusEntry>)
    requires SplitNul(porcelain) == records + [[]] && |entries| == |records| && UniqueEntries(entries)
    requires forall k :: 0 <= k < |records| ==> IsEntryRecord(records[k]) && entries[k] == EntryOfRecord(records[k])
    ensures IsListing(porcelain, entries)
    ensures forall other: seq<StatusEntry> :: IsListing(porcelain, other) ==> other == entries
  {
    TerminatedOfSplit(porcelain);
    assert (records + [[]])[..|records|] == records;
    forall k | 0 <= k < |records| ensures RenderAll(entries)[k] == records[k] && Supported(entries[k]) {
      RenderInverts(records[k]);
      assert records[k] in SplitNul(porcelain);
    }
    assert RenderAll(entries) == records;
    forall other: seq<StatusEntry> | IsListing(porcelain, other) ensures other == entries {
      ListingDeterminesEntries(porcelain, other);
      assert RenderAll(other) == records;
      forall k | 0 <= k < |records| ensures other[k] == entries[k] {
        assert Render(other[k]) == records[k];
      }
    }
  }

  // ----- Committed changes -----

  datatype Change = Change(status: CodeUnit, path: Path)

  function ChangeFields(changes: seq<Change>): (r: seq<Text>)
    ensures |r| == 2 * |changes|
  {
    if changes == [] then []
    else
      var last := changes[|changes| - 1];
      ChangeFields(changes[..|changes| - 1]) + [[last.status], last.path]
  }

  lemma {:induction false} FieldsPrefix(changes: seq<Change>, m: nat)
    requires m <= |changes|
    ensures ChangeFields(changes[..m]) == ChangeFields(changes)[..2 * m]
    decreases |changes|
  {
    if m < |changes| {
      var front := changes[..|changes| - 1];
      FieldsPrefix(front, m);
      assert front[..m] == changes[..m];
    } else {
      assert changes[..m] == changes;
    }
  }

  lemma FieldsAt(changes: seq<Change>, k: nat)
    requires k < |changes|
    ensures ChangeFields(changes)[2 * k] == [changes[k].status] && ChangeFields(changes)[2 * k + 1] == changes[k].path
  {
    FieldsPrefix(changes, k + 1);
    assert changes[..k + 1][..k] == changes[..k];
    assert ChangeFields(changes[..k + 1])[2 * k] == [changes[k].status];
  }

  lemma FieldsAreInjective(a: seq<Change>, b: seq<Change>)
    requires ChangeFields(a) == ChangeFields(b)
    ensures a == b
  {
    forall k | 0 <= k < |a| ensures a[k] == b[k] {
      FieldsAt(a, k);
      FieldsAt(b, k);
      assert [a[k].status][0] == [b[k].status][0];
    }
  }

  predicate IsChangeStatus(c: CodeUnit) {
    c == CHAR_A || c == CHAR_M || c == CHAR_D
  }

  ghost predicate SupportedChange(c: Change) {
    IsChangeStatus(c.status) && c.path != [] && NUL !in c.path
  }

  function ChangeAction(status: CodeUnit): PathAction {
    if status == CHAR_D then ExpectAbsent else ExpectPresent
  }

  function ObservedChanges(changes: seq<Change>): seq<Observation> {
    if changes == [] then []
    else
      var last := changes[|changes| - 1];
      ObservedChanges(changes[..|changes| - 1])
      + (if IsPipelinePath(last.path) then [] else [Observation(last.path, ChangeAction(last.status))])
  }

  ghost predicate UniqueChanges(changes: seq<Change>) {
    forall i, j :: 0 <= i < j < |changes| ==> changes[i].path != changes[j].path
  }

  ghost predicate IsChangeListing(output: Text, changes: seq<Change>) {
    output == Terminated(ChangeFields(changes)) && (forall c <- changes :: SupportedChange(c)) && UniqueChanges(changes)
  }

  predicate AreSupportedFields(fields: seq<Text>) {
    |fields| % 2 == 0
    && forall i :: 0 <= i < |fields| ==> fields[i] != [] && (i % 2 == 1 || (|fields[i]| == 1 && IsChangeStatus(fields[i][0])))
  }

  lemma {:induction false} FieldsAreSupported(changes: seq<Change>)
    requires forall c <- changes :: SupportedChange(c)
    ensures AreSupportedFields(ChangeFields(changes)) && forall f <- ChangeFields(changes) :: NUL !in f
    decreases |changes|
  {
    if changes != [] {
      FieldsAreSupported(changes[..|changes| - 1]);
      assert SupportedChange(changes[|changes| - 1]);
    }
  }

  lemma ChangeListingPieces(output: Text, changes: seq<Change>)
    requires IsChangeListing(output, changes)
    ensures SplitNul(output) == ChangeFields(changes) + [[]] && AreSupportedFields(ChangeFields(changes))
  {
    FieldsAreSupported(changes);
    SplitOfTerminated(ChangeFields(changes));
  }

  lemma SameEnds<T>(a: seq<T>, x: T, b: seq<T>, y: T)
    requires a + [x] == b + [y]
    ensures a == b && x == y
  {
    assert a == (a + [x])[..|a|] && b == (b + [y])[..|b|];
    assert x == (a + [x])[|a|] && y == (b + [y])[|b|];
  }

  lemma UnsupportedFields(output: Text, fields: seq<Text>, last: Text)
    requires SplitNul(output) == fields + [last] && (last != [] || !AreSupportedFields(fields))
    ensures forall changes: seq<Change> :: !IsChangeListing(output, changes)
  {
    forall changes: seq<Change> ensures !IsChangeListing(output, changes) {
      if IsChangeListing(output, changes) {
        ChangeListingPieces(output, changes);
        SameEnds(ChangeFields(changes), [], fields, last);
      }
    }
  }

  lemma SameAsRead(changes: seq<Change>, read: seq<Change>, fields: seq<Text>)
    requires ChangeFields(changes) == fields && 2 * |read| + 1 < |fields| && ChangeFields(read) == fields[..2 * |read|]
    ensures |read| < |changes| && changes[..|read|] == read && changes[|read|].path == fields[2 * |read| + 1]
    ensures forall k :: 0 <= k < |read| ==> changes[k] == read[k]
  {
    hide ChangeFields;
    FieldsPrefix(changes, |read|);
    FieldsAreInjective(changes[..|read|], read);
    FieldsAt(changes, |read|);
    assert forall k :: 0 <= k < |read| ==> changes[..|read|][k] == changes[k];
  }

  lemma RepeatedPath(output: Text, fields: seq<Text>, read: seq<Change>, k: nat)
    requires SplitNul(output) == fields + [[]] && 2 * |read| + 1 < |fields| && ChangeFields(read) == fields[..2 * |read|]
    requires k < |read| && read[k].path == fields[2 * |read| + 1]
    ensures forall changes: seq<Change> :: !IsChangeListing(output, changes)
  {
    forall changes: seq<Change> ensures !IsChangeListing(output, changes) {
      if IsChangeListing(output, changes) {
        ChangeListingPieces(output, changes);
        SameEnds(ChangeFields(changes), [], fields, []);
        SameAsRead(changes, read, fields);
      }
    }
  }

  lemma ReadListing(output: Text, fields: seq<Text>, changes: seq<Change>)
    requires SplitNul(output) == fields + [[]] && ChangeFields(changes) == fields
    requires (forall c <- changes :: SupportedChange(c)) && UniqueChanges(changes)
    ensures IsChangeListing(output, changes)
    ensures forall others: seq<Change> :: IsChangeListing(output, others) ==> others == changes
  {
    TerminatedOfSplit(output);
    forall others: seq<Change> | IsChangeListing(output, others) ensures others == changes {
      ChangeListingPieces(output, others);
      FieldsAreInjective(others, changes);
    }
  }

  lemma ChangeNothing()
    ensures ChangeFields([]) == [] && ObservedChanges([]) == [] && UniqueChanges([])
  {
  }

  lemma ChangeStep(changes: seq<Change>, c: Change)
    requires UniqueChanges(changes) && forall k :: 0 <= k < |changes| ==> changes[k].path != c.path
    ensures UniqueChanges(changes + [c])
    ensures ChangeFields(changes + [c]) == ChangeFields(changes) + [[c.status], c.path]
    ensures ObservedChanges(changes + [c])
            == ObservedChanges(changes) + if IsPipelinePath(c.path) then [] else [Observation(c.path, ChangeAction(c.status))]
  {
    hide IsPipelinePath;
    var all := changes + [c];
    assert all[..|all| - 1] == changes && all[|all| - 1] == c;
    UniqueStep(changes, c);
    hide UniqueChanges;
  }

  lemma UniqueStep(changes: seq<Change>, c: Change)
    requires UniqueChanges(changes) && forall k :: 0 <= k < |changes| ==> changes[k].path != c.path
    ensures UniqueChanges(changes + [c])
  {
  }

  /** Likewise for the committed listing: it is read exactly, and only, as the changes it lists. */
  method ParseCommittedPaths(output: Text) returns (r: Option<seq<Observation>>)
    ensures r.Some? <==> exists changes: seq<Change> :: IsChangeListing(output, changes)
    ensures forall changes: seq<Change> :: IsChangeListing(output, changes) ==> r == Some(ObservedChanges(changes))
  {
    hide IsChangeListing, Terminated, SplitNul, ChangeFields, ObservedChanges, UniqueChanges, IsPipelinePath;
    var pieces := SplitNul(output);
    var fields := pieces[..|pieces| - 1];
    TerminatedOfSplit(output);
    if pieces[|pieces| - 1] != [] || !AreSupportedFields(fields) {
      UnsupportedFields(output, fields, pieces[|pieces| - 1]);
      return None;
    }
    var changes: seq<Change> := [];
    var paths: seq<Observation> := [];
    var seen: set<Path> := {};
    var index := 0;
    ChangeNothing();
    while index < |fields|
      invariant index % 2 == 0 && index <= |fields| && |changes| == index / 2 && ChangeFields(changes) == fields[..index]
      invariant (forall c <- changes :: SupportedChange(c)) && UniqueChanges(changes) && paths == ObservedChanges(changes)
      invariant forall p :: p in seen <==> exists k :: 0 <= k < |changes| && changes[k].path == p
    {
      var path := fields[index + 1];
      if path in seen {
        var k :| 0 <= k < |changes| && changes[k].path == path;
        RepeatedPath(output, fields, changes, k);
        return None;
      }
      seen := seen + {path};
      var change := Change(fields[index][0], path);
      assert path in pieces && [change.status] == fields[index];
      ChangeStep(changes, change);
      assert fields[..index + 2] == fields[..index] + [fields[index], fields[index + 1]];
      if !IsPipelinePath(path) {
        paths := paths + [Observation(path, ChangeAction(change.status))];
      }
      ghost var read := changes;
      changes := changes + [change];
      assert changes[|read|].path == path && forall k :: 0 <= k < |read| ==> changes[k] == read[k];
      index := index + 2;
    }
    assert fields[..index] == fields;
    ReadListing(output, fields, changes);
    r := Some(paths);
  }

  // ----- What the letters of the listings say -----

  /** The path lies under ".pi/pipeline/". */
  ghost predicate IsOwnPath(p: Path) {
    var prefix := ".pi/pipeline/";
    |prefix| <= |p| && forall i :: 0 <= i < |prefix| ==> p[i] == prefix[i] as int
  }

  /** Deleted in the index or in the working tree, and nothing else. */
  ghost predicate IsDeleted(e: StatusEntry) {
    (e.x == 'D' as int && e.y == ' ' as int) || (e.x == ' ' as int && e.y == 'D' as int)
  }

  /** Modified, in the index, in the working tree or both; added, perhaps modified since; or untracked. */
  ghost predicate IsThere(e: StatusEntry) {
    || (e.x in {' ' as int, 'M' as int, 'A' as int} && e.y == 'M' as int)
    || (e.x in {'M' as int, 'A' as int} && e.y == ' ' as int)
    || (e.x == '?' as int && e.y == '?' as int)
  }

  lemma LettersSay(e: StatusEntry)
    ensures StatusAction(e.x, e.y) == Some(ExpectAbsent) <==> IsDeleted(e)
    ensures StatusAction(e.x, e.y) == Some(ExpectPresent) <==> IsThere(e)
    ensures StatusAction(e.x, e.y).Some? <==> IsDeleted(e) || IsThere(e)
  {
  }

  lemma OwnPathIff(p: Path)
    ensures IsPipelinePath(p) <==> IsOwnPath(p)
  {
    var octets: Text := [0x2E, 0x70, 0x69, 0x2F, 0x70, 0x69, 0x70, 0x65, 0x6C, 0x69, 0x6E, 0x65, 0x2F];
    var prefix := ".pi/pipeline/";
    assert |prefix| == 13 && forall i :: 0 <= i < 13 ==> prefix[i] as int == octets[i];
    if |p| >= 13 {
      assert p[..13] == octets <==> forall i :: 0 <= i < 13 ==> p[i] == octets[i];
    }
  }

  /**
   What a status listing says: exactly the deleted entries are expected to be absent, exactly the other
   supported ones to be there, and the pipeline's own files are left out.
   */
  lemma {:induction false} StatusSays(entries: seq<StatusEntry>, o: Observation)
    requires forall e <- entries :: StatusAction(e.x, e.y).Some?
    ensures o in Observed(entries) <==>
      exists e :: e in entries && e.path == o.path && !IsOwnPath(e.path) && (if o.action == ExpectAbsent then IsDeleted(e) else IsThere(e))
    decreases |entries|
  {
    hide IsPipelinePath, StatusAction, IsDeleted, IsThere, IsOwnPath;
    if entries != [] {
      var front, last := entries[..|entries| - 1], entries[|entries| - 1];
      StatusSays(front, o);
      LettersSay(last);
      OwnPathIff(last.path);
      assert entries == front + [last];
    }
  }

  /** What a listing of commits says: exactly the deletions are expected to be absent. */
  lemma {:induction false} ChangesSay(changes: seq<Change>, o: Observation)
    ensures o in ObservedChanges(changes) <==>
      exists c :: c in changes && c.path == o.path && !IsOwnPath(c.path) && (o.action == ExpectAbsent <==> c.status == 'D' as int)
    decreases |changes|
  {
    hide IsPipelinePath, IsOwnPath;
    if changes != [] {
      var front, last := changes[..|changes| - 1], changes[|changes| - 1];
      ChangesSay(front, o);
      OwnPathIff(last.path);
      assert changes == front + [last];
    }
  }

  /** The entries and changes that are supported. */
  lemma SupportedIff(e: StatusEntry, c: Change)
    ensures Supported(e) <==> (IsDeleted(e) || IsThere(e)) && e.path != [] && 0 !in e.path
    ensures SupportedChange(c) <==> c.status in {'A' as int, 'M' as int, 'D' as int} && c.path != [] && 0 !in c.path
  {
    LettersSay(e);
  }

  // ----- Merging -----

  /** The last action recorded for a path. */
  function Latest(observations: seq<Observation>, p: Path): Option<PathAction> {
    if observations == [] then None
    else
      var last := observations[|observations| - 1];
      if last.path == p then Some(last.action) else Latest(observations[..|observations| - 1], p)
  }

  /** What the working tree says of a path overrides what was committed. */
  lemma {:induction false} DirtyOverridesCommitted(committed: seq<Observation>, dirty: seq<Observation>, p: Path)
    ensures Latest(committed + dirty, p) == if Latest(dirty, p).Some? then Latest(dirty, p) else Latest(committed, p)
    decreases |dirty|
  {
    if dirty == [] {
      assert committed + dirty == committed;
    } else {
      assert (committed + dirty)[..|committed| + |dirty| - 1] == committed + dirty[..|dirty| - 1];
      DirtyOverridesCommitted(committed, dirty[..|dirty| - 1], p);
    }
  }

  ghost predicate Ascending(observations: seq<Observation>) {
    forall i, j :: 0 <= i < j < |observations| ==> Less(observations[i].path, observations[j].path)
  }

  function InsertObservation(o: Observation, sorted: seq<Observation>): seq<Observation> {
    if sorted == [] || Less(o.path, sorted[0].path) then [o] + sorted
    else [sorted[0]] + InsertObservation(o, sorted[1..])
  }

  lemma {:induction false} InsertAscends(o: Observation, sorted: seq<Observation>)
    requires Ascending(sorted) && forall x <- sorted :: x.path != o.path
    ensures Ascending(InsertObservation(o, sorted))
    ensures forall x :: x in InsertObservation(o, sorted) <==> x == o || x in sorted
    decreases |sorted|
  {
    hide Less;
    if sorted != [] {
      var head := sorted[0];
      assert sorted == [head] + sorted[1..] && head in sorted;
      LessIsTotal(o.path, head.path);
      if Less(o.path, head.path) {
        forall x | x in sorted[1..] ensures Less(o.path, x.path) {
          LessIsTransitive(o.path, head.path, x.path);
        }
      } else {
        InsertAscends(o, sorted[1..]);
        assert forall x <- InsertObservation(o, sorted[1..]) :: Less(head.path, x.path);
      }
    }
  }

  /** One observation per path, in path order, the latest one winning. */
  method MergePathObservations(committed: seq<Observation>, dirty: seq<Observation>) returns (merged: seq<Observation>)
    ensures Ascending(merged)
    ensures forall o :: o in merged <==> Latest(committed + dirty, o.path) == Some(o.action)
  {
    var all := committed + dirty;
    var paths: map<Path, PathAction> := map[];
    for i := 0 to |all|
      invariant forall p :: (p in paths <==> Latest(all[..i], p).Some?) && (p in paths ==> Latest(all[..i], p) == Some(paths[p]))
    {
      assert all[..i + 1][..i] == all[..i];
      paths := paths[all[i].path := all[i].action];
    }
    assert all[..|all|] == all;
    merged := [];
    var keys := paths.Keys;
    while keys != {}
      invariant keys <= paths.Keys && Ascending(merged)
      invariant forall o :: o in merged <==> o.path in paths && o.path !in keys && paths[o.path] == o.action
    {
      var p :| p in keys;
      keys := keys - {p};
      InsertAscends(Observation(p, paths[p]), merged);
      merged := InsertObservation(Observation(p, paths[p]), merged);
    }
  }
}

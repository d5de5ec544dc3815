/**
 The clerk that turns dispositions of review findings into actions: every claim is checked against
 evidence, and nothing is resolved on a machine's word alone.
 */
module ReviewGates {
  import opened Basics

  datatype Kind = Fix | FalsePositive | OutdatedFixed | Duplicate | Defer | NeedsHuman | UnknownKind

  datatype Evidence = Evidence(commitSha: string, testId: string, canonical: string)

  datatype Disposition = Disposition(fingerprint: Option<string>, kind: Kind, evidence: Evidence, ruled: bool)

  datatype Queue = Queue(blocking: seq<string>, advisory: seq<string>, nonBlocking: seq<string>)

  datatype ActionKind =
    | SkipUnknown
    | ReplyAndResolve
    | SkipUnverified
    | ReplyWithoutResolve
    | AskHuman
    | Uncovered
    | AutoDefer

  datatype Action = Action(fingerprint: Option<string>, kind: ActionKind)

  /** What the repository and this cycle's evidence say of commits and tests. */
  datatype Checks = Checks(commitExists: string -> bool, ranGreen: string -> bool)

  predicate Adjudicable(queue: Queue, fp: Option<string>) {
    fp.Some? && (fp.value in queue.blocking || fp.value in queue.advisory)
  }

  predicate FixVerified(e: Evidence, checks: Checks) {
    checks.commitExists(e.commitSha) && checks.ranGreen(e.testId)
  }

  predicate AbsenceVerified(e: Evidence, checks: Checks) {
    checks.ranGreen(e.testId) || checks.commitExists(e.commitSha)
  }

  /** A claim that closes its finding: a human ruling, or evidence that holds. */
  predicate Closes(d: Disposition, checks: Checks) {
    || (d.ruled && (d.kind.FalsePositive? || d.kind.OutdatedFixed? || d.kind.Duplicate? || d.kind.Defer?))
    || (d.kind.Fix? && FixVerified(d.evidence, checks))
    || (d.kind.OutdatedFixed? && AbsenceVerified(d.evidence, checks))
  }

  // ----- What a plan is -----

  /** The first entry for a finding of the queue that has a known kind. */
  ghost predicate Honoured(queue: Queue, ds: seq<Disposition>, i: nat)
    requires i < |ds|
  {
    Answers(queue, ds[i]) && forall j :: 0 <= j < i ==> !(Answers(queue, ds[j]) && ds[j].fingerprint == ds[i].fingerprint)
  }

  predicate Answers(queue: Queue, d: Disposition) {
    Adjudicable(queue, d.fingerprint) && !d.kind.UnknownKind?
  }

  ghost predicate ClosedInBatch(ds: seq<Disposition>, checks: Checks, fp: string) {
    exists j :: 0 <= j < |ds| && ds[j].fingerprint == Some(fp) && Closes(ds[j], checks)
  }

  /** An unruled duplicate is believed only of something already closed. */
  ghost predicate CanonicalCovered(queue: Queue, ds: seq<Disposition>, checks: Checks, canonical: string) {
    canonical != "" && (canonical in queue.nonBlocking || ClosedInBatch(ds, checks, canonical))
  }

  ghost function Verdict(queue: Queue, ds: seq<Disposition>, checks: Checks, d: Disposition): ActionKind
    requires !d.kind.UnknownKind?
  {
    match d.kind
    case Fix => if FixVerified(d.evidence, checks) then ReplyAndResolve else SkipUnverified
    case FalsePositive => if d.ruled then ReplyAndResolve else ReplyWithoutResolve
    case OutdatedFixed => if d.ruled || AbsenceVerified(d.evidence, checks) then ReplyAndResolve else SkipUnverified
    case Duplicate => if d.ruled || CanonicalCovered(queue, ds, checks, d.evidence.canonical) then ReplyAndResolve else SkipUnverified
    case Defer => if d.ruled then ReplyAndResolve else AskHuman
    case NeedsHuman => AskHuman
  }

  ghost predicate CoveredBy(queue: Queue, ds: seq<Disposition>, fp: string) {
    exists i :: 0 <= i < |ds| && Answers(queue, ds[i]) && ds[i].fingerprint == Some(fp)
  }

  /** One action per disposition in order, then one for every blocking finding without an answer. */
  ghost predicate IsPlan(queue: Queue, ds: seq<Disposition>, checks: Checks, actions: seq<Action>) {
    && |actions| >= |ds|
    && (forall i :: 0 <= i < |ds| ==>
         && actions[i].fingerprint == ds[i].fingerprint
         && actions[i].kind == if Honoured(queue, ds, i) then Verdict(queue, ds, checks, ds[i]) else SkipUnknown)
    && (forall k :: |ds| <= k < |actions| ==>
         && actions[k].kind == Uncovered && actions[k].fingerprint.Some?
         && actions[k].fingerprint.value in queue.blocking && !CoveredBy(queue, ds, actions[k].fingerprint.value))
    && (forall k, l :: |ds| <= k < l < |actions| ==> actions[k].fingerprint != actions[l].fingerprint)
    && forall fp <- queue.blocking :: !CoveredBy(queue, ds, fp) ==>
         exists k :: |ds| <= k < |actions| && actions[k].fingerprint == Some(fp)
  }

  // ----- Planning -----

  method VerifiedClosers(ds: seq<Disposition>, checks: Checks) returns (closers: set<string>)
    ensures forall fp :: fp in closers <==> ClosedInBatch(ds, checks, fp)
  {
    closers := {};
    for i := 0 to |ds|
      invariant forall fp :: fp in closers <==> exists j :: 0 <= j < i && ds[j].fingerprint == Some(fp) && Closes(ds[j], checks)
    {
      if Closes(ds[i], checks) && ds[i].fingerprint.Some? {
        closers := closers + {ds[i].fingerprint.value};
      }
    }
  }

  method Decide(queue: Queue, closers: set<string>, checks: Checks, d: Disposition, ghost ds: seq<Disposition>) returns (kind: ActionKind)
    requires !d.kind.UnknownKind? && forall fp :: fp in closers <==> ClosedInBatch(ds, checks, fp)
    ensures kind == Verdict(queue, ds, checks, d)
  {
    match d.kind {
      case Fix =>
        kind := if FixVerified(d.evidence, checks) then ReplyAndResolve else SkipUnverified;
      case FalsePositive =>
        kind := if d.ruled then ReplyAndResolve else ReplyWithoutResolve;
      case OutdatedFixed =>
        if d.ruled {
          return ReplyAndResolve;
        }
        kind := if AbsenceVerified(d.evidence, checks) then ReplyAndResolve else SkipUnverified;
      case Duplicate =>
        if d.ruled {
          return ReplyAndResolve;
        }
        var canonical := d.evidence.canonical;
        var ok := canonical != "" && (canonical in queue.nonBlocking || canonical in closers);
        kind := if ok then ReplyAndResolve else SkipUnverified;
      case Defer =>
        kind := if d.ruled then ReplyAndResolve else AskHuman;
      case NeedsHuman =>
        kind := AskHuman;
    }
  }

  /** One action per disposition, then the blocking findings nobody answered. */
  method PlanActions(queue: Queue, ds: seq<Disposition>, checks: Checks) returns (actions: seq<Action>)
    ensures IsPlan(queue, ds, checks, actions)
  {
    var closers := VerifiedClosers(ds, checks);
    var covered: set<string> := {};
    actions := [];
    for i := 0 to |ds|
      invariant |actions| == i
      invariant forall fp :: fp in covered <==> exists j :: 0 <= j < i && Answers(queue, ds[j]) && ds[j].fingerprint == Some(fp)
      invariant forall k :: 0 <= k < i ==>
        && actions[k].fingerprint == ds[k].fingerprint
        && actions[k].kind == if Honoured(queue, ds, k) then Verdict(queue, ds, checks, ds[k]) else SkipUnknown
    {
      var d := ds[i];
      if !Adjudicable(queue, d.fingerprint) || d.fingerprint.value in covered || d.kind.UnknownKind? {
        actions := actions + [Action(d.fingerprint, SkipUnknown)];
      } else {
        covered := covered + {d.fingerprint.value};
        var kind := Decide(queue, closers, checks, d, ds);
        assert Honoured(queue, ds, i);
        actions := actions + [Action(d.fingerprint, kind)];
      }
    }
    assert forall fp :: fp in covered <==> CoveredBy(queue, ds, fp);
    actions := AppendUncovered(queue.blocking, covered, actions, |ds|);
  }

  /** Adds one action for each distinct blocking finding that is not covered. */
  method AppendUncovered(blocking: seq<string>, covered: set<string>, planned: seq<Action>, n: nat) returns (actions: seq<Action>)
    requires |planned| == n
    ensures planned <= actions
    ensures forall k :: n <= k < |actions| ==>
      actions[k].kind == Uncovered && actions[k].fingerprint.Some?
      && actions[k].fingerprint.value in blocking && actions[k].fingerprint.value !in covered
    ensures forall k, l :: n <= k < l < |actions| ==> actions[k].fingerprint != actions[l].fingerprint
    ensures forall fp <- blocking :: fp !in covered ==> exists k :: n <= k < |actions| && actions[k].fingerprint == Some(fp)
  {
    actions := planned;
    var seen: set<string> := {};
    for i := 0 to |blocking|
      invariant planned <= actions
      invariant forall k :: n <= k < |actions| ==>
        actions[k].kind == Uncovered && actions[k].fingerprint.Some?
        && actions[k].fingerprint.value in blocking[..i] && actions[k].fingerprint.value !in covered
      invariant forall fp :: fp in seen <==> fp in blocking[..i]
      invariant forall k, l :: n <= k < l < |actions| ==> actions[k].fingerprint != actions[l].fingerprint
      invariant forall fp <- blocking[..i] :: fp !in covered ==> exists k :: n <= k < |actions| && actions[k].fingerprint == Some(fp)
    {
      var fp := blocking[i];
      ghost var before := actions;
      if fp !in seen && fp !in covered {
        actions := actions + [Action(Some(fp), Uncovered)];
        assert actions[|actions| - 1].fingerprint == Some(fp);
      }
      forall f | f in blocking[..i + 1] && f !in covered
        ensures exists k :: n <= k < |actions| && actions[k].fingerprint == Some(f)
      {
        if f in blocking[..i] {
          var k :| n <= k < |before| && before[k].fingerprint == Some(f);
          assert actions[k].fingerprint == Some(f);
        }
      }
      seen := seen + {fp};
      assert blocking[..i + 1] == blocking[..i] + [fp];
    }
    assert blocking[..|blocking|] == blocking;
  }

  predicate IsDeferral(queue: Queue, decided: set<string>, a: Action) {
    a.kind == AutoDefer && a.fingerprint.Some?
    && a.fingerprint.value in queue.advisory && a.fingerprint.value !in decided && StartsWith(a.fingerprint.value, "PRRT_")
  }

  /** One deferral for each undecided finding with a thread, in the order of the queue. */
  function Deferrals(advisory: seq<string>, decided: set<string>): seq<Action> {
    if advisory == [] then []
    else
      var last := advisory[|advisory| - 1];
      Deferrals(advisory[..|advisory| - 1], decided)
      + (if last !in decided && StartsWith(last, "PRRT_") then [Action(Some(last), AutoDefer)] else [])
  }

  /** Advisory findings with a thread become accepted debt, unless something was already decided of them. */
  method PlanAutoDefer(queue: Queue, decided: set<string>) returns (actions: seq<Action>)
    ensures forall a <- actions :: IsDeferral(queue, decided, a)
    ensures forall fp <- queue.advisory :: fp !in decided && StartsWith(fp, "PRRT_") ==> Action(Some(fp), AutoDefer) in actions
    ensures actions == Deferrals(queue.advisory, decided)
  {
    actions := [];
    for i := 0 to |queue.advisory|
      invariant actions == Deferrals(queue.advisory[..i], decided)
      invariant forall a <- actions :: IsDeferral(queue, decided, a)
      invariant forall k :: 0 <= k < i && queue.advisory[k] !in decided && StartsWith(queue.advisory[k], "PRRT_") ==>
        Action(Some(queue.advisory[k]), AutoDefer) in actions
    {
      var fp := queue.advisory[i];
      assert queue.advisory[..i + 1][..i] == queue.advisory[..i];
      if fp !in decided && StartsWith(fp, "PRRT_") {
        actions := actions + [Action(Some(fp), AutoDefer)];
      }
    }
    assert queue.advisory[..|queue.advisory|] == queue.advisory;
  }

  // ----- What a plan guarantees -----

  /** Every blocking finding gets exactly one action that means something. */
  lemma EachBlockingFindingOnce(queue: Queue, ds: seq<Disposition>, checks: Checks, actions: seq<Action>, fp: string)
    requires IsPlan(queue, ds, checks, actions) && fp in queue.blocking
    ensures exists k :: 0 <= k < |actions| && actions[k].fingerprint == Some(fp) && actions[k].kind != SkipUnknown
    ensures forall k, l :: 0 <= k < l < |actions| && actions[k].fingerprint == Some(fp) == actions[l].fingerprint ==>
      actions[k].kind == SkipUnknown || actions[l].kind == SkipUnknown
  {
    if CoveredBy(queue, ds, fp) {
      var i := FirstAnswer(queue, ds, fp);
      assert actions[i].fingerprint == Some(fp);
    }
    forall k, l | 0 <= k < l < |actions| && actions[k].fingerprint == Some(fp) == actions[l].fingerprint
      ensures actions[k].kind == SkipUnknown || actions[l].kind == SkipUnknown
    {
      if k < |ds| && actions[k].kind != SkipUnknown {
        assert Honoured(queue, ds, k);
        assert CoveredBy(queue, ds, fp);
      }
    }
  }

  lemma FirstAnswer(queue: Queue, ds: seq<Disposition>, fp: string) returns (i: nat)
    requires CoveredBy(queue, ds, fp)
    ensures i < |ds| && ds[i].fingerprint == Some(fp) && Honoured(queue, ds, i)
  {
    i := 0;
    while !(Answers(queue, ds[i]) && ds[i].fingerprint == Some(fp))
      invariant i < |ds| && forall j :: 0 <= j < i ==> !(Answers(queue, ds[j]) && ds[j].fingerprint == Some(fp))
      decreases |ds| - i
    {
      i := i + 1;
    }
  }

  /** The entry is the first of a known kind for a blocking or advisory finding. */
  ghost predicate IsFirstAnswer(queue: Queue, ds: seq<Disposition>, i: nat)
    requires i < |ds|
  {
    && ds[i].kind != UnknownKind
    && (exists fp :: ds[i].fingerprint == Some(fp) && fp in queue.blocking + queue.advisory)
    && forall j :: 0 <= j < i ==> !(ds[j].fingerprint == ds[i].fingerprint && ds[j].kind != UnknownKind)
  }

  /**
   Some entry of the batch for this finding is a human ruling that closes, a fix with its commit and
   its green test, or an absence with either of them.
   */
  ghost predicate IsClosed(ds: seq<Disposition>, checks: Checks, fp: string) {
    exists j :: 0 <= j < |ds| && ds[j].fingerprint == Some(fp)
      && var d := ds[j];
         || (d.ruled && d.kind in {FalsePositive, OutdatedFixed, Duplicate, Defer})
         || (d.kind == Fix && checks.commitExists(d.evidence.commitSha) && checks.ranGreen(d.evidence.testId))
         || (d.kind == OutdatedFixed && (checks.commitExists(d.evidence.commitSha) || checks.ranGreen(d.evidence.testId)))
  }

  /** When a claim is believed: what each kind needs of rulings, commits, tests and other findings. */
  ghost predicate IsBelieved(queue: Queue, ds: seq<Disposition>, checks: Checks, d: Disposition) {
    match d.kind
    case Fix => checks.commitExists(d.evidence.commitSha) && checks.ranGreen(d.evidence.testId)
    case FalsePositive => d.ruled
    case OutdatedFixed => d.ruled || checks.commitExists(d.evidence.commitSha) || checks.ranGreen(d.evidence.testId)
    case Duplicate =>
      d.ruled
      || (d.evidence.canonical != "" && (d.evidence.canonical in queue.nonBlocking || IsClosed(ds, checks, d.evidence.canonical)))
    case Defer => d.ruled
    case NeedsHuman => false
    case UnknownKind => false
  }

  /**
   Every action of a plan, in terms of rulings, commits and test runs: a thread is resolved exactly for
   the first answer to a finding that is believed; an unbelieved false positive is answered only, an
   unruled deferral and a plea for help go to a human, and any other unbelieved claim is skipped.
   */
  lemma ActionIff(queue: Queue, ds: seq<Disposition>, checks: Checks, actions: seq<Action>, i: nat)
    requires IsPlan(queue, ds, checks, actions) && i < |ds|
    ensures actions[i].fingerprint == ds[i].fingerprint
    ensures actions[i].kind == SkipUnknown <==> !IsFirstAnswer(queue, ds, i)
    ensures actions[i].kind == ReplyAndResolve <==> IsFirstAnswer(queue, ds, i) && IsBelieved(queue, ds, checks, ds[i])
    ensures actions[i].kind == ReplyWithoutResolve <==> IsFirstAnswer(queue, ds, i) && ds[i].kind == FalsePositive && !ds[i].ruled
    ensures actions[i].kind == AskHuman <==>
      IsFirstAnswer(queue, ds, i) && (ds[i].kind == NeedsHuman || (ds[i].kind == Defer && !ds[i].ruled))
    ensures actions[i].kind == SkipUnverified <==>
      IsFirstAnswer(queue, ds, i) && ds[i].kind in {Fix, OutdatedFixed, Duplicate} && !IsBelieved(queue, ds, checks, ds[i])
  {
    FirstAnswerIff(queue, ds, i);
    ClosedIff(ds, checks, ds[i].evidence.canonical);
    hide IsFirstAnswer, Honoured, IsClosed, ClosedInBatch;
  }

  lemma FirstAnswerIff(queue: Queue, ds: seq<Disposition>, i: nat)
    requires i < |ds|
    ensures Honoured(queue, ds, i) <==> IsFirstAnswer(queue, ds, i)
  {
  }

  lemma ClosedIff(ds: seq<Disposition>, checks: Checks, fp: string)
    ensures ClosedInBatch(ds, checks, fp) <==> IsClosed(ds, checks, fp)
  {
  }

  /** An honoured claim of a duplicate without a ruling resolves exactly when its canonical is covered. */
  lemma DuplicateResolvesIffCovered(queue: Queue, ds: seq<Disposition>, checks: Checks, actions: seq<Action>, i: nat)
    requires IsPlan(queue, ds, checks, actions) && i < |ds| && ds[i].kind.Duplicate? && !ds[i].ruled && Honoured(queue, ds, i)
    ensures actions[i].kind == ReplyAndResolve <==>
      && ds[i].evidence.canonical != ""
      && (ds[i].evidence.canonical in queue.nonBlocking
          || exists j :: 0 <= j < |ds| && ds[j].fingerprint == Some(ds[i].evidence.canonical) && Closes(ds[j], checks))
  {
  }

  /** The finding is answered by machine claims of duplication only. */
  ghost predicate OnlyClaimedDuplicate(ds: seq<Disposition>, fp: string) {
    forall j :: 0 <= j < |ds| && ds[j].fingerprint == Some(fp) ==> ds[j].kind.Duplicate? && !ds[j].ruled
  }

  /** A ring of duplicate claims, of any length, resolves nothing. */
  lemma RingResolvesNothing(queue: Queue, ds: seq<Disposition>, checks: Checks, actions: seq<Action>, ring: set<string>, i: nat)
    requires IsPlan(queue, ds, checks, actions)
    requires forall fp :: fp in ring ==> OnlyClaimedDuplicate(ds, fp) && fp !in queue.nonBlocking
    requires forall j :: 0 <= j < |ds| && ds[j].fingerprint.Some? && ds[j].fingerprint.value in ring ==> ds[j].evidence.canonical in ring
    requires i < |ds| && ds[i].fingerprint.Some? && ds[i].fingerprint.value in ring
    ensures actions[i].kind != ReplyAndResolve
  {
    var canonical := ds[i].evidence.canonical;
    assert canonical in ring;
    assert OnlyClaimedDuplicate(ds, ds[i].fingerprint.value) && OnlyClaimedDuplicate(ds, canonical);
  }

  /** A machine's word never resolves: every resolved finding has a ruling, evidence, or a covered canonical. */
  lemma NothingResolvesUnsupported(queue: Queue, ds: seq<Disposition>, checks: Checks, actions: seq<Action>, k: nat)
    requires IsPlan(queue, ds, checks, actions) && k < |actions| && actions[k].kind == ReplyAndResolve
    ensures k < |ds| && Honoured(queue, ds, k)
    ensures Closes(ds[k], checks) || (ds[k].kind.Duplicate? && CanonicalCovered(queue, ds, checks, ds[k].evidence.canonical))
  {
  }

  /** The first entry that answers for the finding closes it, or is itself a duplicate of something covered. */
  ghost predicate FirstAnswerResolves(queue: Queue, ds: seq<Disposition>, checks: Checks, fp: string) {
    exists j :: 0 <= j < |ds| && ds[j].fingerprint == Some(fp) && Honoured(queue, ds, j) && Resolving(queue, ds, checks, ds[j])
  }

  ghost predicate Resolving(queue: Queue, ds: seq<Disposition>, checks: Checks, d: Disposition) {
    Closes(d, checks) || (d.kind.Duplicate? && CanonicalCovered(queue, ds, checks, d.evidence.canonical))
  }

  ghost predicate IsResolved(actions: seq<Action>, fp: string) {
    exists k :: 0 <= k < |actions| && actions[k] == Action(Some(fp), ReplyAndResolve)
  }

  /** A plan resolves a finding exactly when the first entry that answers for it resolves it. */
  lemma ResolvedIffFirstAnswerResolves(queue: Queue, ds: seq<Disposition>, checks: Checks, actions: seq<Action>, fp: string)
    requires IsPlan(queue, ds, checks, actions)
    ensures IsResolved(actions, fp) <==> FirstAnswerResolves(queue, ds, checks, fp)
  {
    if IsResolved(actions, fp) {
      var k :| 0 <= k < |actions| && actions[k] == Action(Some(fp), ReplyAndResolve);
      NothingResolvesUnsupported(queue, ds, checks, actions, k);
      assert Resolving(queue, ds, checks, ds[k]);
    }
    if FirstAnswerResolves(queue, ds, checks, fp) {
      var j :| 0 <= j < |ds| && ds[j].fingerprint == Some(fp) && Honoured(queue, ds, j) && Resolving(queue, ds, checks, ds[j]);
      assert Verdict(queue, ds, checks, ds[j]) == ReplyAndResolve;
      assert actions[j] == Action(Some(fp), ReplyAndResolve);
    }
  }

  /** The canonical of the claim is not blocking, or the plan resolves it as well. */
  ghost predicate FollowsItsCanonical(queue: Queue, actions: seq<Action>, d: Disposition) {
    d.evidence.canonical in queue.nonBlocking || IsResolved(actions, d.evidence.canonical)
  }

  /**
   A resolved unruled duplicate of an open finding has a resolved canonical exactly when the first
   entry that answers for the canonical closes it or is itself a covered duplicate.  That any entry
   closes the canonical, which is what the plan looks at, is not enough.
   */
  lemma DuplicateFollowsItsCanonicalIff(queue: Queue, ds: seq<Disposition>, checks: Checks, actions: seq<Action>, i: nat)
    requires IsPlan(queue, ds, checks, actions)
    requires i < |ds| && ds[i].kind.Duplicate? && !ds[i].ruled && actions[i].kind == ReplyAndResolve
    ensures FollowsItsCanonical(queue, actions, ds[i]) <==>
      ds[i].evidence.canonical in queue.nonBlocking || FirstAnswerResolves(queue, ds, checks, ds[i].evidence.canonical)
    ensures ds[i].evidence.canonical !in queue.nonBlocking ==> ClosedInBatch(ds, checks, ds[i].evidence.canonical)
  {
    NothingResolvesUnsupported(queue, ds, checks, actions, i);
    ResolvedIffFirstAnswerResolves(queue, ds, checks, actions, ds[i].evidence.canonical);
  }

  /** One entry per finding. */
  ghost predicate OneEntryEach(ds: seq<Disposition>) {
    forall i, j :: 0 <= i < j < |ds| ==> ds[i].fingerprint != ds[j].fingerprint
  }

  /** With one entry per finding the entry that closes an open canonical is the first that answers for it. */
  lemma DuplicateFollowsItsCanonical(queue: Queue, ds: seq<Disposition>, checks: Checks, actions: seq<Action>, i: nat)
    requires IsPlan(queue, ds, checks, actions) && OneEntryEach(ds)
    requires i < |ds| && ds[i].kind.Duplicate? && !ds[i].ruled && actions[i].kind == ReplyAndResolve
    requires ds[i].evidence.canonical !in queue.nonBlocking && Adjudicable(queue, Some(ds[i].evidence.canonical))
    ensures IsResolved(actions, ds[i].evidence.canonical)
  {
    DuplicateFollowsItsCanonicalIff(queue, ds, checks, actions, i);
    var j :| 0 <= j < |ds| && ds[j].fingerprint == Some(ds[i].evidence.canonical) && Closes(ds[j], checks);
    assert Honoured(queue, ds, j) && Resolving(queue, ds, checks, ds[j]);
  }

  const NO_EVIDENCE := Evidence("", "", "")

  /**
   With two entries for one finding this fails: the first asks for a human, the second has evidence,
   and a duplicate of the finding is resolved while the finding itself is not.
   */
  lemma RepeatedEntryDetachesDuplicate(checks: Checks, proof: Evidence)
    requires FixVerified(proof, checks)
    ensures var queue := Queue(["x", "y"], [], []);
            var ds := [Disposition(Some("x"), NeedsHuman, NO_EVIDENCE, false), Disposition(Some("x"), Fix, proof, false),
                       Disposition(Some("y"), Duplicate, Evidence("", "", "x"), false)];
            forall actions: seq<Action> :: IsPlan(queue, ds, checks, actions) ==>
              && actions[0].kind == AskHuman && actions[1].kind == SkipUnknown && actions[2].kind == ReplyAndResolve
              && !FollowsItsCanonical(queue, actions, ds[2]) && !FirstAnswerResolves(queue, ds, checks, "x")
  {
    var queue := Queue(["x", "y"], [], []);
    var ds := [Disposition(Some("x"), NeedsHuman, NO_EVIDENCE, false), Disposition(Some("x"), Fix, proof, false),
               Disposition(Some("y"), Duplicate, Evidence("", "", "x"), false)];
    assert ds[1].fingerprint == Some("x") && Closes(ds[1], checks);
    assert Answers(queue, ds[0]) && Answers(queue, ds[2]);
    assert Honoured(queue, ds, 0) && !Honoured(queue, ds, 1) && !Resolving(queue, ds, checks, ds[0]);
    forall actions: seq<Action> | IsPlan(queue, ds, checks, actions)
      ensures IsResolved(actions, "x") <==> FirstAnswerResolves(queue, ds, checks, "x")
    {
      ResolvedIffFirstAnswerResolves(queue, ds, checks, actions, "x");
    }
    assert Some("x") != Some("y") by { assert "x"[0] != "y"[0]; }
    assert Honoured(queue, ds, 2);
    assert ds[2].evidence.canonical == "x" && |"x"| == 1;
  }

  /** The fingerprints for which the plan holds anything but "uncovered". */
  ghost predicate Decided(actions: seq<Action>, decided: set<string>) {
    forall fp :: fp in decided <==> exists k :: 0 <= k < |actions| && actions[k].fingerprint == Some(fp) && actions[k].kind != Uncovered
  }

  /** Auto-deferral never touches a finding somebody spoke of, not even with an unknown kind. */
  lemma AutoDeferYieldsToDispositions(queue: Queue, ds: seq<Disposition>, checks: Checks, actions: seq<Action>, decided: set<string>, i: nat)
    requires IsPlan(queue, ds, checks, actions) && Decided(actions, decided)
    requires i < |ds| && ds[i].fingerprint.Some?
    ensures ds[i].fingerprint.value in decided
  {
    assert actions[i].fingerprint == ds[i].fingerprint && actions[i].kind != Uncovered;
  }
}

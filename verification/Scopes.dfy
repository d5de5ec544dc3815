/**
 Canonical repository scopes and the final-scope comparison.  A digest is modelled by its preimage,
 the octet stream handed to the hash: "the digests are equal" is "the streams are equal".
 */
module Scopes {
  import opened Basics
  import opened Utf

  type Path = Text
  type Digest = seq<Byte>

  /** A repository file: its octets, or the mark that it is absent. */
  datatype File =
    | Present(path: Path, bytes: seq<Byte>)
    | Absent(path: Path)

  datatype RepositoryScope = RepositoryScope(paths: seq<Path>, digest: Digest)

  datatype ScopeError = InvalidPath | DuplicatePath

  datatype Comparison =
    | Attested(docs: RepositoryScope, finalWorkingTreeDigest: Digest)
    | ReviewInvalidated(changedPaths: seq<Path>)

  // ----- Path order and path rules -----

  /** Order of strings by code unit. */
  predicate Less(a: Path, b: Path) {
    b != [] && (a == [] || a[0] < b[0] || (a[0] == b[0] && Less(a[1..], b[1..])))
  }

  lemma {:induction false} LessIsTotal(a: Path, b: Path)
    ensures Less(a, b) || Less(b, a) || a == b
    ensures !(Less(a, b) && Less(b, a)) && !Less(a, a)
    decreases |a|
  {
    if a != [] {
      LessIsTotal(a[1..], if b == [] then a[1..] else b[1..]);
      assert a == [a[0]] + a[1..];
      assert b != [] ==> b == [b[0]] + b[1..];
    }
  }

  lemma {:induction false} LessIsTransitive(a: Path, b: Path, c: Path)
    requires Less(a, b) && Less(b, c)
    ensures Less(a, c)
    decreases |b|
  {
    if a != [] && a[0] == b[0] == c[0] {
      LessIsTransitive(a[1..], b[1..], c[1..]);
    }
  }

  /** The order in terms of positions: at the first difference the smaller unit, or the end, comes first. */
  lemma {:induction false} LessIff(a: Path, b: Path)
    ensures Less(a, b) <==>
      exists k: nat :: k < |b| && k <= |a| && a[..k] == b[..k] && (k == |a| || a[k] < b[k])
    decreases |a|
  {
    if b != [] && a != [] && a[0] == b[0] {
      LessIff(a[1..], b[1..]);
      if k: nat :| k < |b[1..]| && k <= |a[1..]| && a[1..][..k] == b[1..][..k] && (k == |a[1..]| || a[1..][k] < b[1..][k]) {
        assert a[..k + 1] == [a[0]] + a[1..][..k] && b[..k + 1] == [b[0]] + b[1..][..k];
      }
      if k: nat :| k < |b| && k <= |a| && a[..k] == b[..k] && (k == |a| || a[k] < b[k]) {
        assert k > 0;
        assert a[1..][..k - 1] == a[..k][1..] && b[1..][..k - 1] == b[..k][1..];
      }
    } else if b != [] && (a == [] || a[0] < b[0]) {
      assert a[..0] == b[..0];
    } else if a != [] && b != [] {
      assert forall k: nat :: 0 < k <= |b| && k <= |a| ==> a[..k][0] == a[0] && b[..k][0] == b[0];
    }
  }

  const SLASH: CodeUnit := 0x2F
  const BACKSLASH: CodeUnit := 0x5C
  const COLON: CodeUnit := 0x3A
  const DOT: CodeUnit := 0x2E

  predicate IsLetter(c: CodeUnit) {
    0x41 <= c <= 0x5A || 0x61 <= c <= 0x7A
  }

  /** A segment boundary before position `i`: the start of the path, or a slash. */
  predicate SegmentStart(p: Path, i: nat) {
    i == 0 || (i <= |p| && p[i - 1] == SLASH)
  }

  predicate SegmentEnd(p: Path, i: nat) {
    i == |p| || (i < |p| && p[i] == SLASH)
  }

  predicate HasDotSegment(p: Path) {
    exists i :: 0 <= i < |p| && SegmentStart(p, i) && p[i] == DOT
      && (SegmentEnd(p, i + 1) || (i + 1 < |p| && p[i + 1] == DOT && SegmentEnd(p, i + 2)))
  }

  /** Canonical repository-relative paths: the complement of the rejecting expression. */
  predicate ValidPath(p: Path) {
    && p != []
    && (forall i :: 0 <= i < |p| ==> p[i] >= 0x20 && p[i] != 0x7F && p[i] != BACKSLASH)
    && p[0] != SLASH && p[|p| - 1] != SLASH
    && !(|p| >= 2 && IsLetter(p[0]) && p[1] == COLON)
    && (forall i :: 0 < i < |p| ==> !(p[i - 1] == SLASH && p[i] == SLASH))
    && !HasDotSegment(p)
  }

  /** A segment: a stretch without a slash between two slashes or ends of the path. */
  ghost predicate IsSegment(p: Path, i: nat, j: nat) {
    && i <= j <= |p| && (i == 0 || p[i - 1] == 0x2F) && (j == |p| || p[j] == 0x2F)
    && forall k :: i <= k < j ==> p[k] != 0x2F
  }

  /**
   A path is accepted exactly when it has no control character, no delete character and no backslash,
   does not start with a drive letter, and each of its segments names something: none is empty, "." or "..".
   */
  lemma ValidPathIff(p: Path)
    ensures ValidPath(p) <==>
      && (forall k :: 0 <= k < |p| ==> 0x20 <= p[k] && p[k] != 0x7F && p[k] != 0x5C)
      && !(|p| >= 2 && (0x41 <= p[0] <= 0x5A || 0x61 <= p[0] <= 0x7A) && p[1] == 0x3A)
      && forall i: nat, j: nat :: IsSegment(p, i, j) ==> p[i..j] != [] && p[i..j] != [0x2E] && p[i..j] != [0x2E, 0x2E]
  {
    if ValidPath(p) {
      forall i: nat, j: nat | IsSegment(p, i, j)
        ensures p[i..j] != [] && p[i..j] != [0x2E] && p[i..j] != [0x2E, 0x2E]
      {
        SegmentOfValidPath(p, i, j);
      }
    } else if forall i: nat, j: nat :: IsSegment(p, i, j) ==> p[i..j] != [] && p[i..j] != [0x2E] && p[i..j] != [0x2E, 0x2E] {
      NoSegmentIsEmpty(p);
      NoDotSegment(p);
      hide HasDotSegment, IsSegment;
    }
  }

  lemma SegmentOfValidPath(p: Path, i: nat, j: nat)
    requires ValidPath(p) && IsSegment(p, i, j)
    ensures p[i..j] != [] && p[i..j] != [0x2E] && p[i..j] != [0x2E, 0x2E]
  {
    if p[i..j] == [0x2E] || p[i..j] == [0x2E, 0x2E] {
      assert p[i] == p[i..j][0] && (j == i + 2 ==> p[i + 1] == p[i..j][1]);
      assert SegmentStart(p, i) && SegmentEnd(p, j);
    }
  }

  lemma NoSegmentIsEmpty(p: Path)
    requires forall i: nat, j: nat :: IsSegment(p, i, j) ==> p[i..j] != []
    ensures p != [] && p[0] != SLASH && p[|p| - 1] != SLASH
    ensures forall i :: 0 < i < |p| ==> !(p[i - 1] == SLASH && p[i] == SLASH)
  {
    assert !IsSegment(p, 0, 0) && !IsSegment(p, |p|, |p|);
    forall i | 0 < i < |p| ensures !(p[i - 1] == SLASH && p[i] == SLASH) {
      assert !IsSegment(p, i, i);
    }
  }

  lemma NoDotSegment(p: Path)
    requires forall i: nat, j: nat :: IsSegment(p, i, j) ==> p[i..j] != [0x2E] && p[i..j] != [0x2E, 0x2E]
    ensures !HasDotSegment(p)
  {
    if HasDotSegment(p) {
      var i :| 0 <= i < |p| && SegmentStart(p, i) && p[i] == DOT
        && (SegmentEnd(p, i + 1) || (i + 1 < |p| && p[i + 1] == DOT && SegmentEnd(p, i + 2)));
      if SegmentEnd(p, i + 1) {
        assert IsSegment(p, i, i + 1);
      } else {
        assert SegmentEnd(p, i + 2) && i + 2 <= |p|;
        assert p[i] != SLASH && p[i + 1] != SLASH;
        assert IsSegment(p, i, i + 2);
      }
    }
  }

  // ----- Canonical order -----

  ghost predicate Sorted(files: seq<File>) {
    forall i, j :: 0 <= i < j < |files| ==> Less(files[i].path, files[j].path)
  }

  ghost predicate UniquePaths(files: seq<File>) {
    forall i, j :: 0 <= i < j < |files| ==> files[i].path != files[j].path
  }

  ghost predicate ValidPaths(files: seq<File>) {
    forall f <- files :: ValidPath(f.path)
  }

  function Insert(f: File, sorted: seq<File>): seq<File> {
    if sorted == [] || Less(f.path, sorted[0].path) then [f] + sorted
    else [sorted[0]] + Insert(f, sorted[1..])
  }

  /** `Array.prototype.sort` with the path order. */
  function Sort(files: seq<File>): seq<File> {
    if files == [] then [] else Insert(files[0], Sort(files[1..]))
  }

  lemma {:induction false} InsertSorts(f: File, sorted: seq<File>)
    requires Sorted(sorted) && forall g <- sorted :: g.path != f.path
    ensures Sorted(Insert(f, sorted))
    ensures multiset(Insert(f, sorted)) == multiset{f} + multiset(sorted)
    ensures forall g :: g in Insert(f, sorted) <==> g == f || g in sorted
    decreases |sorted|
  {
    hide Less;
    if sorted != [] {
      var head := sorted[0];
      assert sorted == [head] + sorted[1..];
      LessIsTotal(f.path, head.path);
      if Less(f.path, head.path) {
        forall g | g in sorted[1..] ensures Less(f.path, g.path) {
          LessIsTransitive(f.path, head.path, g.path);
        }
      } else {
        assert f.path != head.path by {
          FirstIsMember(sorted);
        }
        InsertSorts(f, sorted[1..]);
        assert forall g <- Insert(f, sorted[1..]) :: Less(head.path, g.path);
      }
    }
  }

  lemma {:induction false} SortSorts(files: seq<File>)
    requires UniquePaths(files)
    ensures Sorted(Sort(files)) && multiset(Sort(files)) == multiset(files)
    ensures forall g :: g in Sort(files) <==> g in files
    decreases |files|
  {
    if files != [] {
      assert files == [files[0]] + files[1..];
      SortSorts(files[1..]);
      InsertSorts(files[0], Sort(files[1..]));
    }
  }

  lemma FirstIsMember<T>(s: seq<T>)
    requires s != []
    ensures s[0] in s
  {
  }

  /** A strictly sorted list is determined by its elements. */
  lemma {:induction false} SortedIsUnique(a: seq<File>, b: seq<File>)
    requires Sorted(a) && Sorted(b)
    requires forall f :: f in a <==> f in b
    ensures a == b
    decreases |a|
  {
    if a == [] {
      if b != [] {
        FirstIsMember(b);
        assert false;
      }
    } else {
      assert a[0] in b && b[0] in a;
      LessIsTotal(a[0].path, b[0].path);
      assert a[0] == b[0];
      forall f ensures f in a[1..] <==> f in b[1..] {
        LessIsTotal(a[0].path, a[0].path);
        assert f in a <==> f == a[0] || f in a[1..];
        assert f in b <==> f == b[0] || f in b[1..];
      }
      SortedIsUnique(a[1..], b[1..]);
      assert a == [a[0]] + a[1..] && b == [b[0]] + b[1..];
    }
  }

  /** Checks the paths one by one, remembering those seen, then sorts. */
  method CanonicalizeFiles(files: seq<File>) returns (r: Result<seq<File>, ScopeError>)
    ensures r.Ok? <==> ValidPaths(files) && UniquePaths(files)
    ensures r.Ok? ==> r.value == Sort(files) && Sorted(r.value)
    ensures r == Err(DuplicatePath) ==> !UniquePaths(files)
    ensures r == Err(InvalidPath) ==> !ValidPaths(files)
  {
    var seen: set<Path> := {};
    for i := 0 to |files|
      invariant ValidPaths(files[..i]) && UniquePaths(files[..i])
      invariant forall p :: p in seen <==> exists j :: 0 <= j < i && files[j].path == p
    {
      if !ValidPath(files[i].path) {
        assert files[i] in files;
        return Err(InvalidPath);
      }
      if files[i].path in seen {
        return Err(DuplicatePath);
      }
      seen := seen + {files[i].path};
    }
    assert files[..|files|] == files;
    SortSorts(files);
    r := Ok(Sort(files));
  }

  /** The canonical order does not depend on the order of the input. */
  lemma CanonicalOrderIsInputIndependent(a: seq<File>, b: seq<File>)
    requires UniquePaths(a) && UniquePaths(b)
    ensures Sort(a) == Sort(b) <==> multiset(a) == multiset(b)
  {
    SortSorts(a);
    SortSorts(b);
    if multiset(a) == multiset(b) {
      forall f ensures f in Sort(a) <==> f in Sort(b) {
        assert f in a <==> f in multiset(a);
        assert f in b <==> f in multiset(b);
      }
      SortedIsUnique(Sort(a), Sort(b));
    }
  }

  // ----- The digest stream and its decoder -----

  function Digits(n: nat): (d: seq<Byte>)
    ensures |d| > 0 && 0x30 <= d[0] < 0x3A
  {
    if n < 10 then [0x30 + n] else Digits(n / 10) + [0x30 + n % 10]
  }

  /** A length in decimal digits, a colon, then that many octets. */
  function Field(bytes: seq<Byte>): seq<Byte> {
    Digits(|bytes|) + [COLON] + bytes
  }

  /** The octets of "absent:". */
  const TOMBSTONE: seq<Byte> := [0x61, 0x62, 0x73, 0x65, 0x6E, 0x74, 0x3A]

  function Frame(f: File): seq<Byte> {
    Field(Encode(f.path)) + (if f.Absent? then TOMBSTONE else Field(f.bytes))
  }

  function Stream(files: seq<File>): seq<Byte> {
    if files == [] then [] else Frame(files[0]) + Stream(files[1..])
  }

  function PathsOf(files: seq<File>): (paths: seq<Path>)
    ensures |paths| == |files| && forall i :: 0 <= i < |files| ==> paths[i] == files[i].path
  {
    if files == [] then [] else [files[0].path] + PathsOf(files[1..])
  }

  /** The scope of a file list, hashed in the order given. */
  method CreateScope(files: seq<File>) returns (scope: RepositoryScope)
    ensures scope == ScopeOf(files)
  {
    hide Digits, Encode;
    var hashed: seq<Byte> := [];
    assert files[0..] == files;
    for i := 0 to |files|
      invariant hashed + Stream(files[i..]) == Stream(files)
    {
      var file := files[i];
      var pathBytes := Encode(file.path);
      var update := Digits(|pathBytes|) + [COLON] + pathBytes;
      if file.Absent? {
        update := update + TOMBSTONE;
      } else {
        update := update + (Digits(|file.bytes|) + [COLON] + file.bytes);
      }
      StreamStep(hashed, update, files, i);
      hashed := hashed + update;
    }
    scope := RepositoryScope(PathsOf(files), hashed);
  }

  lemma StreamStep(hashed: seq<Byte>, update: seq<Byte>, files: seq<File>, i: nat)
    requires i < |files| && update == Frame(files[i])
    ensures hashed + Stream(files[i..]) == hashed + update + Stream(files[i + 1..])
  {
    hide Frame;
    assert files[i..][1..] == files[i + 1..];
  }

  function ScopeOf(files: seq<File>): RepositoryScope {
    RepositoryScope(PathsOf(files), Stream(files))
  }

  /** What the stream determines of a file: the encoded path and the content. */
  datatype Entry = Entry(pathBytes: seq<Byte>, content: Option<seq<Byte>>)

  function EntryOf(f: File): Entry {
    Entry(Encode(f.path), if f.Absent? then None else Some(f.bytes))
  }

  function Entries(files: seq<File>): (es: seq<Entry>)
    ensures |es| == |files| && forall i :: 0 <= i < |files| ==> es[i] == EntryOf(files[i])
  {
    if files == [] then [] else [EntryOf(files[0])] + Entries(files[1..])
  }

  function ReadLength(acc: nat, s: seq<Byte>): (r: Option<(nat, seq<Byte>)>)
    ensures r.Some? ==> |r.value.1| < |s|
    decreases |s|
  {
    if s == [] then None
    else if s[0] == COLON then Some((acc, s[1..]))
    else if 0x30 <= s[0] < 0x3A then ReadLength(acc * 10 + (s[0] as int - 0x30), s[1..])
    else None
  }

  function ReadField(s: seq<Byte>): (r: Option<(seq<Byte>, seq<Byte>)>)
    ensures r.Some? ==> |r.value.1| < |s|
  {
    match ReadLength(0, s)
    case None => None
    case Some((n, rest)) => if |rest| < n then None else Some((rest[..n], rest[n..]))
  }

  function ReadEntry(s: seq<Byte>): (r: Option<(Entry, seq<Byte>)>)
    ensures r.Some? ==> |r.value.1| < |s|
  {
    match ReadField(s)
    case None => None
    case Some((path, rest)) =>
      if StartsWith(rest, TOMBSTONE) then Some((Entry(path, None), rest[|TOMBSTONE|..]))
      else
        match ReadField(rest)
        case None => None
        case Some((content, after)) => Some((Entry(path, Some(content)), after))
  }

  /** An independent reader of the stream. */
  function ReadStream(s: seq<Byte>): Option<seq<Entry>>
    decreases |s|
  {
    if s == [] then Some([])
    else
      match ReadEntry(s)
      case None => None
      case Some((e, rest)) =>
        match ReadStream(rest)
        case None => None
        case Some(es) => Some([e] + es)
  }

  lemma {:induction false} ReadLengthInverts(n: nat, rest: seq<Byte>)
    ensures ReadLength(0, Digits(n) + rest) == ReadLength(n, rest)
    decreases n
  {
    if n < 10 {
      assert (Digits(n) + rest)[1..] == rest;
    } else {
      var last: Byte := 0x30 + n % 10;
      assert Digits(n) + rest == Digits(n / 10) + ([last] + rest);
      ReadLengthInverts(n / 10, [last] + rest);
      assert ([last] + rest)[1..] == rest;
    }
  }

  lemma ReadFieldInverts(bytes: seq<Byte>, rest: seq<Byte>)
    ensures ReadField(Field(bytes) + rest) == Some((bytes, rest))
  {
    var tail := [COLON] + (bytes + rest);
    assert Field(bytes) + rest == Digits(|bytes|) + tail;
    ReadLengthInverts(|bytes|, tail);
    assert tail[1..] == bytes + rest;
    assert (bytes + rest)[..|bytes|] == bytes && (bytes + rest)[|bytes|..] == rest;
  }

  lemma FirstOfPrefix(s: seq<Byte>, prefix: seq<Byte>)
    requires prefix != [] && StartsWith(s, prefix)
    ensures s[0] == prefix[0]
  {
    assert s[..|prefix|][0] == s[0];
  }

  /** A tombstone is never taken for a content field, whose first octet is a digit. */
  lemma ReadEntryInverts(f: File, rest: seq<Byte>)
    ensures ReadEntry(Frame(f) + rest) == Some((EntryOf(f), rest))
  {
    var second := if f.Absent? then TOMBSTONE else Field(f.bytes);
    assert Frame(f) + rest == Field(Encode(f.path)) + (second + rest);
    ReadFieldInverts(Encode(f.path), second + rest);
    if f.Absent? {
      assert (second + rest)[..|TOMBSTONE|] == TOMBSTONE;
      assert (second + rest)[|TOMBSTONE|..] == rest;
    } else {
      assert (second + rest)[0] == Digits(|f.bytes|)[0] != TOMBSTONE[0];
      if StartsWith(second + rest, TOMBSTONE) {
        FirstOfPrefix(second + rest, TOMBSTONE);
        assert false;
      }
      ReadFieldInverts(f.bytes, rest);
    }
  }

  /** For every file list the reader recovers every encoded path and every content. */
  lemma {:induction false} ReadStreamInverts(files: seq<File>)
    ensures ReadStream(Stream(files)) == Some(Entries(files))
    decreases |files|
  {
    if files != [] {
      ReadEntryInverts(files[0], Stream(files[1..]));
      ReadStreamInverts(files[1..]);
      assert |Frame(files[0])| > 0;
    }
  }

  /** Equal digests mean equal encoded paths and equal contents, position by position. */
  lemma DigestDeterminesEntries(a: seq<File>, b: seq<File>)
    ensures ScopeOf(a).digest == ScopeOf(b).digest <==> Entries(a) == Entries(b)
  {
    ReadStreamInverts(a);
    ReadStreamInverts(b);
    if Entries(a) == Entries(b) {
      EntriesDetermineStream(a, b);
    }
  }

  lemma {:induction false} EntriesDetermineStream(a: seq<File>, b: seq<File>)
    requires Entries(a) == Entries(b)
    ensures Stream(a) == Stream(b)
    decreases |a|
  {
    if a != [] {
      assert EntryOf(a[0]) == Entries(a)[0] == Entries(b)[0] == EntryOf(b[0]);
      assert Entries(a)[1..] == Entries(a[1..]) && Entries(b)[1..] == Entries(b[1..]);
      EntriesDetermineStream(a[1..], b[1..]);
    }
  }

  /** On paths without unpaired surrogates the digest alone determines the file list. */
  lemma DigestDeterminesFiles(a: seq<File>, b: seq<File>)
    requires forall f <- a + b :: WellFormed(f.path)
    ensures ScopeOf(a).digest == ScopeOf(b).digest <==> a == b
  {
    DigestDeterminesEntries(a, b);
    if Entries(a) == Entries(b) {
      forall i | 0 <= i < |a| ensures a[i] == b[i] {
        assert a[i] == (a + b)[i] && b[i] == (a + b)[|a| + i];
        DecodeInvertsEncode(a[i].path);
        DecodeInvertsEncode(b[i].path);
        assert Entries(a)[i] == Entries(b)[i];
      }
    }
  }

  ghost predicate DistinctivePaths(files: seq<File>) {
    forall i :: 0 <= i < |files| ==> Distinctive(files[i].path)
  }

  /**
   The digest of a list belongs to that list alone exactly when no path of it holds an unpaired
   surrogate or U+FFFD; nothing is asked of the other lists.
   */
  lemma DigestIsOwnIffPathsDistinctive(a: seq<File>)
    ensures (forall b: seq<File> :: ScopeOf(b).digest == ScopeOf(a).digest ==> b == a) <==> DistinctivePaths(a)
  {
    hide ScopeOf, Distinctive;
    if DistinctivePaths(a) {
      forall b: seq<File> | ScopeOf(b).digest == ScopeOf(a).digest ensures b == a {
        OwnDigest(a, b);
      }
    } else {
      var i :| 0 <= i < |a| && !Distinctive(a[i].path);
      var b := TwinList(a, i);
    }
  }

  /** Only one of the two lists needs distinctive paths. */
  lemma OwnDigest(a: seq<File>, b: seq<File>)
    requires DistinctivePaths(a) && ScopeOf(b).digest == ScopeOf(a).digest
    ensures b == a
  {
    DigestDeterminesEntries(b, a);
    hide ScopeOf, Distinctive, Encode;
    forall i | 0 <= i < |a| ensures b[i] == a[i] {
      assert EntryOf(b[i]) == Entries(b)[i] == Entries(a)[i] == EntryOf(a[i]);
      EncodingIsOwnIffDistinctive(a[i].path);
      assert Encode(b[i].path) == Encode(a[i].path);
    }
  }

  lemma TwinList(a: seq<File>, i: nat) returns (b: seq<File>)
    requires i < |a| && !Distinctive(a[i].path)
    ensures b != a && ScopeOf(b).digest == ScopeOf(a).digest
  {
    hide Distinctive, Encode, ScopeOf;
    EncodingIsOwnIffDistinctive(a[i].path);
    var twin: Path :| Encode(twin) == Encode(a[i].path) && twin != a[i].path;
    var f := if a[i].Present? then Present(twin, a[i].bytes) else Absent(twin);
    b := a[i := f];
    assert f.path != a[i].path && b[i] != a[i];
    assert Entries(b) == Entries(a);
    DigestDeterminesEntries(b, a);
  }

  /** Not so with unpaired surrogates: two valid paths can share one encoding, hence one digest. */
  lemma UnpairedSurrogatesShareADigest()
    ensures var a, b := Present([0xD800], []), Present([0xD801], []);
            ValidPath(a.path) && ValidPath(b.path) && a != b && ScopeOf([a]).digest == ScopeOf([b]).digest
  {
    var a, b := Present([0xD800], []), Present([0xD801], []);
    EncodeUnpaired(a.path);
    EncodeUnpaired(b.path);
    assert Frame(a) == Frame(b);
    assert a.path != b.path;
  }

  // ----- Comparing a final scope with the reviewed one -----

  predicate ScopesMatch(left: RepositoryScope, right: RepositoryScope) {
    && left.digest == right.digest
    && |left.paths| == |right.paths|
    && forall i :: 0 <= i < |left.paths| ==> left.paths[i] == right.paths[i]
  }

  /** Because paths are compared too, a match is equality of the files, surrogates or not. */
  lemma MatchIsEquality(a: seq<File>, b: seq<File>)
    ensures ScopesMatch(ScopeOf(a), ScopeOf(b)) <==> a == b
  {
    DigestDeterminesEntries(a, b);
    if ScopesMatch(ScopeOf(a), ScopeOf(b)) {
      forall i | 0 <= i < |a| ensures a[i] == b[i] {
        assert Entries(a)[i] == Entries(b)[i];
        assert PathsOf(a)[i] == PathsOf(b)[i];
      }
    }
  }

  function Keep(files: seq<File>, docs: set<Path>, inDocs: bool): (kept: seq<File>)
    ensures forall f :: f in kept <==> f in files && ((f.path in docs) == inDocs)
  {
    if files == [] then []
    else
      assert files == [files[0]] + files[1..];
      (if (files[0].path in docs) == inDocs then [files[0]] else []) + Keep(files[1..], docs, inDocs)
  }

  lemma {:induction false} KeepSorted(files: seq<File>, docs: set<Path>, inDocs: bool)
    requires Sorted(files)
    ensures Sorted(Keep(files, docs, inDocs))
    decreases |files|
  {
    if files != [] {
      KeepSorted(files[1..], docs, inDocs);
    }
  }

  function Without(paths: seq<Path>, other: seq<Path>): (r: seq<Path>)
    ensures forall p :: p in r <==> p in paths && p !in other
  {
    if paths == [] then []
    else (if paths[0] in other then [] else [paths[0]]) + Without(paths[1..], other)
  }

  function InsertPath(p: Path, sorted: seq<Path>): (r: seq<Path>)
    ensures forall q :: q in r <==> q == p || q in sorted
  {
    if sorted == [] || Less(p, sorted[0]) then [p] + sorted
    else if p == sorted[0] then sorted
    else [sorted[0]] + InsertPath(p, sorted[1..])
  }

  /** `[...new Set(paths)].sort()`. */
  function SortPaths(paths: seq<Path>): (r: seq<Path>)
    ensures forall q :: q in r <==> q in paths
  {
    if paths == [] then [] else InsertPath(paths[0], SortPaths(paths[1..]))
  }

  /** Paths in one scope only; when there are none, every reviewed path. */
  function ChangedScopePaths(finalScope: RepositoryScope, reviewed: RepositoryScope): (r: seq<Path>)
    ensures (exists p :: (p in finalScope.paths) != (p in reviewed.paths))
            ==> forall p :: p in r <==> (p in finalScope.paths) != (p in reviewed.paths)
    ensures (forall p :: p in finalScope.paths <==> p in reviewed.paths) ==> r == reviewed.paths
  {
    var different := Without(finalScope.paths, reviewed.paths) + Without(reviewed.paths, finalScope.paths);
    if |different| == 0 then
      assert forall p :: p !in different;
      reviewed.paths
    else
      assert different[0] in different;
      SortPaths(different)
  }

  /** Compares complete final files with the reviewed scope, leaving out the allowed documents. */
  method CompareFinalScopeToReview(reviewed: RepositoryScope, files: seq<File>, allowed: seq<Path>)
    returns (r: Result<Comparison, ScopeError>)
    ensures r.Ok? <==> ValidPaths(files) && UniquePaths(files) && (forall p <- allowed :: ValidPath(p)) && Unique(allowed)
    ensures r.Ok? ==> r.value == Compare(reviewed, Sort(files), set p | p in allowed)
  {
    var canonical := CanonicalizeFiles(files);
    if canonical.Err? {
      return Err(canonical.error);
    }
    var asFiles := seq(|allowed|, i requires 0 <= i < |allowed| => Present(allowed[i], []));
    assert forall i :: 0 <= i < |allowed| ==> asFiles[i].path == allowed[i] && asFiles[i] in asFiles;
    var docPaths := CanonicalizeFiles(asFiles);
    if docPaths.Err? {
      return Err(docPaths.error);
    }
    var docs := set p | p in allowed;
    var finalFiles := canonical.value;
    var finalReviewed := CreateScope(Keep(finalFiles, docs, false));
    if !ScopesMatch(finalReviewed, reviewed) {
      return Ok(ReviewInvalidated(ChangedScopePaths(finalReviewed, reviewed)));
    }
    var docsScope := CreateScope(Keep(finalFiles, docs, true));
    var whole := CreateScope(finalFiles);
    r := Ok(Attested(docsScope, whole.digest));
  }

  function Compare(reviewed: RepositoryScope, finalFiles: seq<File>, docs: set<Path>): Comparison {
    var finalReviewed := ScopeOf(Keep(finalFiles, docs, false));
    if ScopesMatch(finalReviewed, reviewed) then
      Attested(ScopeOf(Keep(finalFiles, docs, true)), ScopeOf(finalFiles).digest)
    else ReviewInvalidated(ChangedScopePaths(finalReviewed, reviewed))
  }

  predicate Disjoint(left: RepositoryScope, right: RepositoryScope) {
    forall p <- right.paths :: p !in left.paths
  }

  /** A scope path is the path of one of its files. */
  lemma ScopePaths(files: seq<File>, p: Path)
    ensures p in ScopeOf(files).paths <==> exists f :: f in files && f.path == p
  {
    if p in ScopeOf(files).paths {
      var i :| 0 <= i < |files| && PathsOf(files)[i] == p;
      assert files[i] in files;
    }
    if f :| f in files && f.path == p {
      var i :| 0 <= i < |files| && files[i] == f;
      assert PathsOf(files)[i] == p;
    }
  }

  /** The comparison attests exactly when the files outside the documents are the reviewed files. */
  lemma AttestsIffReviewedUnchanged(reviewedFiles: seq<File>, finalFiles: seq<File>, docs: set<Path>)
    ensures Compare(ScopeOf(reviewedFiles), finalFiles, docs).Attested? <==> Keep(finalFiles, docs, false) == reviewedFiles
  {
    MatchIsEquality(Keep(finalFiles, docs, false), reviewedFiles);
  }

  /** Attested documents and reviewed paths are disjoint, and together they are the final paths. */
  lemma AttestedPathsPartition(reviewed: RepositoryScope, finalFiles: seq<File>, docs: set<Path>)
    requires Compare(reviewed, finalFiles, docs).Attested?
    ensures Disjoint(reviewed, Compare(reviewed, finalFiles, docs).docs)
    ensures forall p :: p in PathsOf(finalFiles) <==>
      p in reviewed.paths || p in Compare(reviewed, finalFiles, docs).docs.paths
  {
    var kept, docFiles := Keep(finalFiles, docs, false), Keep(finalFiles, docs, true);
    assert ScopeOf(kept).paths == reviewed.paths;
    forall p
      ensures p in ScopeOf(docFiles).paths ==> p !in reviewed.paths
      ensures p in PathsOf(finalFiles) <==> p in reviewed.paths || p in ScopeOf(docFiles).paths
    {
      ScopePaths(kept, p);
      ScopePaths(docFiles, p);
      ScopePaths(finalFiles, p);
    }
  }

  /** An invalidation names no path only when both scopes have no path and the digests differ. */
  lemma InvalidationNamesAPath(reviewed: RepositoryScope, finalFiles: seq<File>, docs: set<Path>)
    requires Compare(reviewed, finalFiles, docs).ReviewInvalidated?
    ensures Compare(reviewed, finalFiles, docs).changedPaths == [] <==>
      reviewed.paths == [] && Keep(finalFiles, docs, false) == []
    ensures (exists files :: reviewed == ScopeOf(files)) ==> Compare(reviewed, finalFiles, docs).changedPaths != []
  {
    var kept := Keep(finalFiles, docs, false);
    var r := ChangedScopePaths(ScopeOf(kept), reviewed);
    if p :| (p in ScopeOf(kept).paths) != (p in reviewed.paths) {
      assert p in r;
    }
    if kept != [] {
      assert PathsOf(kept)[0] in ScopeOf(kept).paths;
    }
    forall files | reviewed == ScopeOf(files)
      ensures kept != files
    {
      MatchIsEquality(kept, files);
    }
    assert forall files :: reviewed == ScopeOf(files) ==> |files| == |reviewed.paths|;
  }

  /** A recorded scope without paths, but with the digest of something: the store accepts it, and no path is named. */
  lemma UnnamedInvalidation(digest: Digest)
    requires digest != []
    ensures CanonicalPaths([]) && Compare(RepositoryScope([], digest), [], {}) == ReviewInvalidated([])
  {
    assert ScopeOf([]) == RepositoryScope([], []);
    assert Keep([], {}, false) == [];
  }

  // ----- The order of the changed paths -----

  ghost predicate PathsAscend(paths: seq<Path>) {
    forall i, j :: 0 <= i < j < |paths| ==> Less(paths[i], paths[j])
  }

  lemma {:induction false} InsertPathAscends(p: Path, sorted: seq<Path>)
    requires PathsAscend(sorted)
    ensures PathsAscend(InsertPath(p, sorted))
    decreases |sorted|
  {
    hide Less;
    if sorted != [] {
      var head := sorted[0];
      assert head in sorted && sorted == [head] + sorted[1..];
      LessIsTotal(p, head);
      if Less(p, head) {
        forall q | q in sorted[1..] ensures Less(p, q) {
          LessIsTransitive(p, head, q);
        }
      } else if p != head {
        InsertPathAscends(p, sorted[1..]);
        assert forall q <- InsertPath(p, sorted[1..]) :: Less(head, q);
      }
    }
  }

  lemma {:induction false} SortPathsAscends(paths: seq<Path>)
    ensures PathsAscend(SortPaths(paths))
    decreases |paths|
  {
    if paths != [] {
      SortPathsAscends(paths[1..]);
      InsertPathAscends(paths[0], SortPaths(paths[1..]));
    }
  }

  /** An ascending list is determined by its members. */
  lemma {:induction false} AscendingIsUnique(a: seq<Path>, b: seq<Path>)
    requires PathsAscend(a) && PathsAscend(b) && forall p :: p in a <==> p in b
    ensures a == b
    decreases |a|
  {
    hide Less;
    if a == [] {
      if b != [] {
        FirstIsMember(b);
        assert false;
      }
    } else {
      assert a[0] in b && b[0] in a;
      LessIsTotal(a[0], b[0]);
      assert a[0] == b[0];
      forall p ensures p in a[1..] <==> p in b[1..] {
        LessIsTotal(a[0], a[0]);
        assert p in a <==> p == a[0] || p in a[1..];
        assert p in b <==> p == b[0] || p in b[1..];
      }
      AscendingIsUnique(a[1..], b[1..]);
    }
  }

  /** Which path lists an invalidation can name: exactly the ascending list of the paths in one scope only. */
  lemma ChangedPathsAreExact(finalScope: RepositoryScope, reviewed: RepositoryScope, paths: seq<Path>)
    requires exists p :: (p in finalScope.paths) != (p in reviewed.paths)
    ensures paths == ChangedScopePaths(finalScope, reviewed) <==>
      PathsAscend(paths) && forall p :: p in paths <==> (p in finalScope.paths) != (p in reviewed.paths)
  {
    hide Less;
    var r := ChangedScopePaths(finalScope, reviewed);
    SortPathsAscends(Without(finalScope.paths, reviewed.paths) + Without(reviewed.paths, finalScope.paths));
    var p :| (p in finalScope.paths) != (p in reviewed.paths);
    assert p in Without(finalScope.paths, reviewed.paths) + Without(reviewed.paths, finalScope.paths);
    assert PathsAscend(r);
    if PathsAscend(paths) && forall p :: p in paths <==> (p in finalScope.paths) != (p in reviewed.paths) {
      AscendingIsUnique(paths, r);
    }
  }

  /** Documents and whole tree can be read back from the digests of a receipt. */
  lemma AttestedDigestsReadBack(reviewed: RepositoryScope, finalFiles: seq<File>, docs: set<Path>)
    requires Compare(reviewed, finalFiles, docs).Attested?
    ensures var r := Compare(reviewed, finalFiles, docs);
      && ReadStream(r.finalWorkingTreeDigest) == Some(Entries(finalFiles))
      && (forall f :: f in finalFiles && f.path in docs ==> f.path in r.docs.paths)
      && exists docFiles :: (forall f :: f in docFiles <==> f in finalFiles && f.path in docs) && ReadStream(r.docs.digest) == Some(Entries(docFiles))
  {
    var docFiles := Keep(finalFiles, docs, true);
    ReadStreamInverts(finalFiles);
    ReadStreamInverts(docFiles);
    forall f | f in finalFiles && f.path in docs ensures f.path in ScopeOf(docFiles).paths {
      ScopePaths(docFiles, f.path);
    }
  }

  /** Two attested comparisons of sorted trees give the same receipt data only for the same tree. */
  lemma AttestationDeterminesTree(reviewed: RepositoryScope, a: seq<File>, aDocs: set<Path>, b: seq<File>, bDocs: set<Path>)
    requires Sorted(a) && Sorted(b)
    requires Compare(reviewed, a, aDocs).Attested? && Compare(reviewed, b, bDocs).Attested?
    ensures Compare(reviewed, a, aDocs) == Compare(reviewed, b, bDocs) ==> a == b
  {
    var x, y := Compare(reviewed, a, aDocs), Compare(reviewed, b, bDocs);
    if x == y {
      DigestDeterminesEntries(Keep(a, aDocs, true), Keep(b, bDocs, true));
      MatchIsEquality(Keep(a, aDocs, true), Keep(b, bDocs, true));
      assert ScopesMatch(ScopeOf(Keep(a, aDocs, false)), ScopeOf(Keep(b, bDocs, false)));
      MatchIsEquality(Keep(a, aDocs, false), Keep(b, bDocs, false));
      forall f ensures f in a <==> f in b {
        assert f in a <==> f in Keep(a, aDocs, true) || f in Keep(a, aDocs, false);
        assert f in b <==> f in Keep(b, bDocs, true) || f in Keep(b, bDocs, false);
      }
      SortedIsUnique(a, b);
    }
  }

  /** What the durable-state check accepts as the paths of a scope. */
  ghost predicate CanonicalPaths(paths: seq<Path>) {
    (forall p <- paths :: ValidPath(p)) && PathsAscend(paths)
  }

  lemma SortedFilesHaveCanonicalPaths(files: seq<File>)
    requires Sorted(files) && ValidPaths(files)
    ensures CanonicalPaths(ScopeOf(files).paths)
  {
    forall p | p in PathsOf(files) ensures ValidPath(p) {
      ScopePaths(files, p);
    }
  }
}

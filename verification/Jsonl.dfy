/**
 The incremental JSONL parser for child stdout.  Text decoding and JSON parsing belong to the host:
 they are arbitrary deterministic functions here, and the decoder's own memory (it runs in streaming
 mode, so an octet group cut by a newline reaches into the next line) is an arbitrary state type.
 */
module Jsonl {
  import opened Basics
  import opened Utf

  const NEWLINE: Byte := 0x0A
  const CARRIAGE_RETURN: CodeUnit := 0x0D
  const MAX_PARSE_ISSUE_PREVIEW_CHARS := 1000
  const MAX_UNINTERESTING_LINE_CHARS := 500_000

  datatype Parsed<V> =
    | Value(value: V, transient: bool)
    | SyntaxError(message: string)

  /** `TextDecoder.decode(bytes, {stream})` and `JSON.parse`. */
  datatype Host<!D, !V> = Host(
    decode: (D, seq<Byte>, bool) -> (Text, D),
    parse: Text -> Parsed<V>,
    initial: D)

  datatype Record<V> = Record(line: nat, value: V)
  datatype Issue = Issue(line: nat, message: string, text: Text)

  datatype Chunk = TextChunk(text: Text) | ByteChunk(bytes: seq<Byte>)

  /** What has been consumed so far, and the octets of the line that is still open. */
  datatype Progress<D, V> = Progress(
    tail: seq<Byte>,
    decoder: D,
    line: nat,
    records: seq<Record<V>>,
    issues: seq<Issue>)

  function Ascii(s: string): (t: Text)
    requires forall i :: 0 <= i < |s| ==> s[i] < '\U{80}'
    ensures |t| == |s|
  {
    seq(|s|, i requires 0 <= i < |s| => s[i] as int)
  }

  predicate Contains(text: Text, part: Text) {
    StartsWith(text, part) || (text != [] && Contains(text[1..], part))
  }

  predicate IsSpaceUnit(c: CodeUnit) {
    (c < 0xD800 || c > 0xDFFF) && IsSpace(c as char)
  }

  function StripCarriageReturn(t: Text): Text {
    if t != [] && t[|t| - 1] == CARRIAGE_RETURN then t[..|t| - 1] else t
  }

  predicate IsPotentiallyRelevant(t: Text) {
    |t| <= MAX_UNINTERESTING_LINE_CHARS
    || Contains(t, Ascii("\"headlessOutput\""))
    || Contains(t, Ascii("\"message_end\""))
  }

  /** One line of input: blank lines count but leave no record; transient updates are dropped. */
  function ConsumeLine<D, V>(host: Host<D, V>, g: Progress<D, V>, bytes: seq<Byte>, stream: bool): Progress<D, V> {
    var (raw, decoder) := host.decode(g.decoder, bytes, stream);
    var text := StripCarriageReturn(raw);
    var next := g.(decoder := decoder, line := g.line + 1);
    if (forall i :: 0 <= i < |text| ==> IsSpaceUnit(text[i])) || !IsPotentiallyRelevant(text) then next
    else
      match host.parse(text)
      case Value(value, transient) =>
        if transient then next else next.(records := g.records + [Record(g.line, value)])
      case SyntaxError(message) =>
        var preview := if |text| > MAX_PARSE_ISSUE_PREVIEW_CHARS then text[..MAX_PARSE_ISSUE_PREVIEW_CHARS] else text;
        next.(issues := g.issues + [Issue(g.line, message, preview)])
  }

  // ----- The reference: cut the whole input at newlines, then consume the pieces -----

  /** The pieces between newlines, as `split("\n")` gives them: always at least one. */
  function Split(b: seq<Byte>): (pieces: seq<seq<Byte>>)
    ensures |pieces| > 0
  {
    var i := IndexOf(b, NEWLINE);
    if i < 0 then [b] else [b[..i]] + Split(b[i + 1..])
  }

  function ConsumeLines<D, V>(host: Host<D, V>, g: Progress<D, V>, lines: seq<seq<Byte>>): Progress<D, V>
    decreases |lines|
  {
    if lines == [] then g else ConsumeLines(host, ConsumeLine(host, g, lines[0], true), lines[1..])
  }

  function Start<D, V>(host: Host<D, V>): Progress<D, V> {
    Progress([], host.initial, 1, [], [])
  }

  /** Parsing the whole input in one go: every terminated line, then a last unterminated one. */
  function ParseWhole<D, V>(host: Host<D, V>, b: seq<Byte>): Progress<D, V> {
    Close(host, ConsumePieces(host, Start(host), Split(b)))
  }

  function Close<D, V>(host: Host<D, V>, g: Progress<D, V>): Progress<D, V> {
    if g.tail == [] then g else ConsumeLine(host, g, g.tail, false).(tail := [])
  }

  // ----- Octet by octet -----

  function Feed<D, V>(host: Host<D, V>, g: Progress<D, V>, b: seq<Byte>): Progress<D, V>
    decreases |b|
  {
    if b == [] then g else Feed(host, FeedByte(host, g, b[0]), b[1..])
  }

  function FeedByte<D, V>(host: Host<D, V>, g: Progress<D, V>, b: Byte): Progress<D, V> {
    if b == NEWLINE then ConsumeLine(host, g, g.tail, true).(tail := []) else g.(tail := g.tail + [b])
  }

  lemma {:induction false} FeedConcat<D, V>(host: Host<D, V>, g: Progress<D, V>, a: seq<Byte>, b: seq<Byte>)
    ensures Feed(host, Feed(host, g, a), b) == Feed(host, g, a + b)
    decreases |a|
  {
    if a == [] {
      assert a + b == b;
    } else {
      assert (a + b)[1..] == a[1..] + b;
      FeedConcat(host, FeedByte(host, g, a[0]), a[1..], b);
    }
  }

  lemma {:induction false} FeedPlain<D, V>(host: Host<D, V>, g: Progress<D, V>, b: seq<Byte>)
    requires NEWLINE !in b
    ensures Feed(host, g, b) == g.(tail := g.tail + b)
    decreases |b|
  {
    if b == [] {
      assert g.tail + b == g.tail;
    } else {
      FeedPlain(host, FeedByte(host, g, b[0]), b[1..]);
      assert g.tail + [b[0]] + b[1..] == g.tail + b;
    }
  }

  /** The tail never influences how an earlier line is consumed. */
  lemma ConsumeIgnoresTail<D, V>(host: Host<D, V>, g: Progress<D, V>, t: seq<Byte>, bytes: seq<Byte>, stream: bool)
    ensures ConsumeLine(host, g.(tail := t), bytes, stream) == ConsumeLine(host, g, bytes, stream).(tail := t)
  {
  }

  lemma FeedLine<D, V>(host: Host<D, V>, g: Progress<D, V>, line: seq<Byte>, rest: seq<Byte>)
    requires g.tail == [] && NEWLINE !in line
    ensures Feed(host, g, line + ([NEWLINE] + rest)) == Feed(host, ConsumeLine(host, g, line, true), rest)
    ensures ConsumeLine(host, g, line, true).tail == []
  {
    hide ConsumeLine;
    FeedConcat(host, g, line, [NEWLINE] + rest);
    FeedPlain(host, g, line);
    assert g.tail + line == line && ([NEWLINE] + rest)[1..] == rest;
    ConsumeIgnoresTail(host, g, line, line, true);
    ConsumeIgnoresTail(host, g, [], line, true);
  }

  /** What consuming the pieces of `b` gives: all but the last are lines, the last stays open. */
  function ConsumePieces<D, V>(host: Host<D, V>, g: Progress<D, V>, pieces: seq<seq<Byte>>): Progress<D, V>
    requires |pieces| > 0
  {
    ConsumeLines(host, g, pieces[..|pieces| - 1]).(tail := pieces[|pieces| - 1])
  }

  lemma ConsumePiecesStep<D, V>(host: Host<D, V>, g: Progress<D, V>, line: seq<Byte>, rest: seq<seq<Byte>>)
    requires |rest| > 0
    ensures ConsumePieces(host, g, [line] + rest) == ConsumePieces(host, ConsumeLine(host, g, line, true), rest)
  {
    hide ConsumeLine;
    var pieces := [line] + rest;
    assert pieces[..|pieces| - 1] == [line] + rest[..|rest| - 1];
  }

  /** Feeding octets one at a time is consuming the pieces between newlines. */
  lemma {:induction false} FeedIsSplit<D, V>(host: Host<D, V>, g: Progress<D, V>, b: seq<Byte>)
    requires g.tail == []
    ensures Feed(host, g, b) == ConsumePieces(host, g, Split(b))
    decreases |b|
  {
    hide ConsumeLine, Feed, ConsumePieces;
    var i := IndexOf(b, NEWLINE);
    if i < 0 {
      FeedOpenLine(host, g, b);
    } else {
      assert b == b[..i] + ([NEWLINE] + b[i + 1..]);
      FeedLine(host, g, b[..i], b[i + 1..]);
      FeedIsSplit(host, ConsumeLine(host, g, b[..i], true), b[i + 1..]);
      ConsumePiecesStep(host, g, b[..i], Split(b[i + 1..]));
    }
  }

  lemma FeedOpenLine<D, V>(host: Host<D, V>, g: Progress<D, V>, b: seq<Byte>)
    requires g.tail == [] && NEWLINE !in b
    ensures Feed(host, g, b) == ConsumePieces(host, g, [b])
  {
    FeedPlain(host, g, b);
    assert g.tail + b == b;
  }

  /** The incremental octet reading agrees with the reference, for every cut of the octets. */
  lemma FeedChunksIsParseWhole<D, V>(host: Host<D, V>, b: seq<Byte>)
    ensures Close(host, Feed(host, Start(host), b)) == ParseWhole(host, b)
  {
    FeedIsSplit(host, Start(host), b);
  }

  // ----- What is reported, line by line -----

  /** A line without the carriage return it may end with. */
  ghost function WithoutReturn(raw: Text): (text: Text)
    ensures raw == text + [0x0D] || (raw == text && (raw == [] || raw[|raw| - 1] != 0x0D))
  {
    if raw != [] && raw[|raw| - 1] == 0x0D then raw[..|raw| - 1] else raw
  }

  /**
   The texts of the lines between newlines, decoded in order with the memory of the decoder.  What
   follows the last newline is a line only when there is something.
   */
  ghost function Texts<D, V>(host: Host<D, V>, decoder: D, pieces: seq<seq<Byte>>): seq<Text>
    requires pieces != []
    decreases |pieces|
  {
    if |pieces| == 1 then
      if pieces[0] == [] then [] else [WithoutReturn(host.decode(decoder, pieces[0], false).0)]
    else
      var (raw, next) := host.decode(decoder, pieces[0], true);
      [WithoutReturn(raw)] + Texts(host, next, pieces[1..])
  }

  ghost predicate OccursAt(part: Text, text: Text, i: nat) {
    i + |part| <= |text| && text[i..i + |part|] == part
  }

  ghost predicate Occurs(part: Text, text: Text) {
    exists i: nat :: OccursAt(part, text, i)
  }

  /** Something other than white space, and short or with one of the two marks. */
  ghost predicate IsRead(text: Text) {
    && (exists i :: 0 <= i < |text| && !IsSpaceUnit(text[i]))
    && (|text| <= 500_000 || Occurs(Ascii("\"headlessOutput\""), text) || Occurs(Ascii("\"message_end\""), text))
  }

  /** The line is read and parses to something that lasts. */
  ghost predicate IsRecorded<D, V>(host: Host<D, V>, text: Text) {
    IsRead(text) && host.parse(text).Value? && !host.parse(text).transient
  }

  /** The line is read and does not parse. */
  ghost predicate IsReported<D, V>(host: Host<D, V>, text: Text) {
    IsRead(text) && host.parse(text).SyntaxError?
  }

  ghost predicate IsRecordOf<D, V>(host: Host<D, V>, lines: seq<Text>, r: Record<V>) {
    && 1 <= r.line <= |lines| && IsRecorded(host, lines[r.line - 1])
    && host.parse(lines[r.line - 1]) == Value(r.value, false)
  }

  /** The message of the parser and the first 1000 characters. */
  ghost predicate IsIssueOf<D, V>(host: Host<D, V>, lines: seq<Text>, x: Issue) {
    && 1 <= x.line <= |lines| && IsReported(host, lines[x.line - 1])
    && host.parse(lines[x.line - 1]) == SyntaxError(x.message)
    && (if |lines[x.line - 1]| <= 1000 then x.text == lines[x.line - 1] else x.text == lines[x.line - 1][..1000])
  }

  ghost predicate HasRecord<V>(records: seq<Record<V>>, line: nat) {
    exists i :: 0 <= i < |records| && records[i].line == line
  }

  ghost predicate HasIssue(issues: seq<Issue>, line: nat) {
    exists i :: 0 <= i < |issues| && issues[i].line == line
  }

  /** Exactly the lines that are read and parse to something lasting, each once, in order, with their values. */
  ghost predicate RecordsAre<D, V>(host: Host<D, V>, lines: seq<Text>, records: seq<Record<V>>) {
    && (forall i, j :: 0 <= i < j < |records| ==> records[i].line < records[j].line)
    && (forall i :: 0 <= i < |records| ==> IsRecordOf(host, lines, records[i]))
    && forall n :: 0 <= n < |lines| && IsRecorded(host, lines[n]) ==> HasRecord(records, n + 1)
  }

  /** Exactly the lines that are read and do not parse, each once, in order. */
  ghost predicate IssuesAre<D, V>(host: Host<D, V>, lines: seq<Text>, issues: seq<Issue>) {
    && (forall i, j :: 0 <= i < j < |issues| ==> issues[i].line < issues[j].line)
    && (forall i :: 0 <= i < |issues| ==> IsIssueOf(host, lines, issues[i]))
    && forall n :: 0 <= n < |lines| && IsReported(host, lines[n]) ==> HasIssue(issues, n + 1)
  }

  /** What the parser holds of these lines; the line counter is one more than their number. */
  ghost predicate Holds<D, V>(host: Host<D, V>, lines: seq<Text>, g: Progress<D, V>) {
    g.line == |lines| + 1 && RecordsAre(host, lines, g.records) && IssuesAre(host, lines, g.issues)
  }

  lemma {:induction false} ContainsIffOccurs(text: Text, part: Text)
    ensures Contains(text, part) <==> Occurs(part, text)
    decreases |text|
  {
    if StartsWith(text, part) {
      assert OccursAt(part, text, 0);
    } else if text != [] {
      ContainsIffOccurs(text[1..], part);
      if Occurs(part, text[1..]) {
        var i: nat :| OccursAt(part, text[1..], i);
        assert text[i + 1..i + 1 + |part|] == text[1..][i..i + |part|];
        assert OccursAt(part, text, i + 1);
      }
      if Occurs(part, text) {
        var i: nat :| OccursAt(part, text, i);
        assert i > 0;
        assert text[1..][i - 1..i - 1 + |part|] == text[i..i + |part|];
        assert OccursAt(part, text[1..], i - 1);
      }
    } else {
      assert !OccursAt(part, text, 0);
    }
  }

  lemma ReadIffRelevant(text: Text)
    ensures IsRead(text) <==> !((forall i :: 0 <= i < |text| ==> IsSpaceUnit(text[i])) || !IsPotentiallyRelevant(text))
  {
    ContainsIffOccurs(text, Ascii("\"headlessOutput\""));
    ContainsIffOccurs(text, Ascii("\"message_end\""));
    hide Contains, Occurs, IsSpaceUnit, Ascii;
  }

  /** One line more is one record more, one issue more, or nothing. */
  lemma LineHolds<D, V>(host: Host<D, V>, lines: seq<Text>, g: Progress<D, V>, bytes: seq<Byte>, stream: bool)
    requires Holds(host, lines, g)
    ensures Holds(host, lines + [WithoutReturn(host.decode(g.decoder, bytes, stream).0)], ConsumeLine(host, g, bytes, stream))
    ensures ConsumeLine(host, g, bytes, stream).decoder == host.decode(g.decoder, bytes, stream).1
  {
    var text := WithoutReturn(host.decode(g.decoder, bytes, stream).0);
    var next := ConsumeLine(host, g, bytes, stream);
    ReadIffRelevant(text);
    hide IsRead, IsPotentiallyRelevant, IsSpaceUnit, RecordsAre, IssuesAre;
    if IsRecorded(host, text) {
      RecordAdded(host, lines, g.records, text, Record(g.line, host.parse(text).value));
    } else {
      NoRecordAdded(host, lines, g.records, text);
    }
    if IsReported(host, text) {
      IssueAdded(host, lines, g.issues, text,
                 Issue(g.line, host.parse(text).message, if |text| <= 1000 then text else text[..1000]));
    } else {
      NoIssueAdded(host, lines, g.issues, text);
    }
  }

  lemma LaterLines(lines: seq<Text>, text: Text)
    ensures |lines + [text]| == |lines| + 1 && (lines + [text])[|lines|] == text
    ensures forall n :: 0 <= n < |lines| ==> (lines + [text])[n] == lines[n]
  {
  }

  lemma RecordStays<D, V>(host: Host<D, V>, lines: seq<Text>, text: Text, r: Record<V>)
    requires IsRecordOf(host, lines, r)
    ensures IsRecordOf(host, lines + [text], r)
  {
    hide IsRecorded;
    assert (lines + [text])[r.line - 1] == lines[r.line - 1];
  }

  lemma NewestRecord<D, V>(host: Host<D, V>, lines: seq<Text>, text: Text, r: Record<V>)
    requires IsRecorded(host, text) && r.line == |lines| + 1
    requires host.parse(text) == Value(r.value, false)
    ensures IsRecordOf(host, lines + [text], r)
  {
    hide IsRecorded;
    assert (lines + [text])[r.line - 1] == text;
  }

  lemma HasRecordMore<V>(records: seq<Record<V>>, r: Record<V>, line: nat)
    ensures HasRecord(records + [r], line) <==> HasRecord(records, line) || r.line == line
  {
    if HasRecord(records, line) {
      var i :| 0 <= i < |records| && records[i].line == line;
      assert (records + [r])[i].line == line;
    }
    assert (records + [r])[|records|] == r;
  }

  lemma RecordsAscend<D, V>(host: Host<D, V>, lines: seq<Text>, records: seq<Record<V>>, r: Record<V>)
    requires RecordsAre(host, lines, records) && r.line == |lines| + 1
    ensures forall i, j :: 0 <= i < j < |records + [r]| ==> (records + [r])[i].line < (records + [r])[j].line
  {
    hide IsRecorded, HasRecord;
    assert forall i :: 0 <= i < |records| ==> IsRecordOf(host, lines, records[i]);
  }

  lemma RecordAdded<D, V>(host: Host<D, V>, lines: seq<Text>, records: seq<Record<V>>, text: Text, r: Record<V>)
    requires RecordsAre(host, lines, records) && IsRecorded(host, text)
    requires r.line == |lines| + 1 && host.parse(text) == Value(r.value, false)
    ensures RecordsAre(host, lines + [text], records + [r])
  {
    hide IsRecorded, IsRecordOf, HasRecord;
    var all, more := lines + [text], records + [r];
    LaterLines(lines, text);
    NewestRecord(host, lines, text, r);
    forall i | 0 <= i < |more| ensures IsRecordOf(host, all, more[i]) {
      if i < |records| {
        assert more[i] == records[i];
        RecordStays(host, lines, text, records[i]);
      }
    }
    forall n | 0 <= n < |all| && IsRecorded(host, all[n]) ensures HasRecord(more, n + 1) {
      if n < |lines| {
        assert HasRecord(records, n + 1);
      }
      HasRecordMore(records, r, n + 1);
    }
    RecordsAscend(host, lines, records, r);
  }

  lemma NoRecordAdded<D, V>(host: Host<D, V>, lines: seq<Text>, records: seq<Record<V>>, text: Text)
    requires RecordsAre(host, lines, records) && !IsRecorded(host, text)
    ensures RecordsAre(host, lines + [text], records)
  {
    hide IsRecorded, IsRecordOf, HasRecord;
    var all := lines + [text];
    LaterLines(lines, text);
    forall i | 0 <= i < |records| ensures IsRecordOf(host, all, records[i]) {
      RecordStays(host, lines, text, records[i]);
    }
  }

  lemma IssueStays<D, V>(host: Host<D, V>, lines: seq<Text>, text: Text, x: Issue)
    requires IsIssueOf(host, lines, x)
    ensures IsIssueOf(host, lines + [text], x)
  {
    hide IsReported;
    assert (lines + [text])[x.line - 1] == lines[x.line - 1];
  }

  lemma NewestIssue<D, V>(host: Host<D, V>, lines: seq<Text>, text: Text, x: Issue)
    requires IsReported(host, text) && x.line == |lines| + 1
    requires host.parse(text) == SyntaxError(x.message) && x.text == if |text| <= 1000 then text else text[..1000]
    ensures IsIssueOf(host, lines + [text], x)
  {
    hide IsReported;
    assert (lines + [text])[x.line - 1] == text;
  }

  lemma HasIssueMore(issues: seq<Issue>, x: Issue, line: nat)
    ensures HasIssue(issues + [x], line) <==> HasIssue(issues, line) || x.line == line
  {
    if HasIssue(issues, line) {
      var i :| 0 <= i < |issues| && issues[i].line == line;
      assert (issues + [x])[i].line == line;
    }
    assert (issues + [x])[|issues|] == x;
  }

  lemma IssuesAscend<D, V>(host: Host<D, V>, lines: seq<Text>, issues: seq<Issue>, x: Issue)
    requires IssuesAre(host, lines, issues) && x.line == |lines| + 1
    ensures forall i, j :: 0 <= i < j < |issues + [x]| ==> (issues + [x])[i].line < (issues + [x])[j].line
  {
    hide IsReported, HasIssue;
    assert forall i :: 0 <= i < |issues| ==> IsIssueOf(host, lines, issues[i]);
  }

  lemma IssueAdded<D, V>(host: Host<D, V>, lines: seq<Text>, issues: seq<Issue>, text: Text, x: Issue)
    requires IssuesAre(host, lines, issues) && IsReported(host, text)
    requires x.line == |lines| + 1 && host.parse(text) == SyntaxError(x.message)
    requires x.text == if |text| <= 1000 then text else text[..1000]
    ensures IssuesAre(host, lines + [text], issues + [x])
  {
    hide IsReported, IsIssueOf, HasIssue;
    var all, more := lines + [text], issues + [x];
    LaterLines(lines, text);
    NewestIssue(host, lines, text, x);
    forall i | 0 <= i < |more| ensures IsIssueOf(host, all, more[i]) {
      if i < |issues| {
        assert more[i] == issues[i];
        IssueStays(host, lines, text, issues[i]);
      }
    }
    forall n | 0 <= n < |all| && IsReported(host, all[n]) ensures HasIssue(more, n + 1) {
      if n < |lines| {
        assert HasIssue(issues, n + 1);
      }
      HasIssueMore(issues, x, n + 1);
    }
    IssuesAscend(host, lines, issues, x);
  }

  lemma NoIssueAdded<D, V>(host: Host<D, V>, lines: seq<Text>, issues: seq<Issue>, text: Text)
    requires IssuesAre(host, lines, issues) && !IsReported(host, text)
    ensures IssuesAre(host, lines + [text], issues)
  {
    hide IsReported, IsIssueOf, HasIssue;
    var all := lines + [text];
    LaterLines(lines, text);
    forall i | 0 <= i < |issues| ensures IsIssueOf(host, all, issues[i]) {
      IssueStays(host, lines, text, issues[i]);
    }
  }

  lemma HoldsIgnoresTail<D, V>(host: Host<D, V>, lines: seq<Text>, g: Progress<D, V>, tail: seq<Byte>)
    requires Holds(host, lines, g)
    ensures Holds(host, lines, g.(tail := tail))
  {
    hide RecordsAre, IssuesAre;
  }

  lemma {:induction false} PiecesHold<D, V>(host: Host<D, V>, lines: seq<Text>, g: Progress<D, V>, pieces: seq<seq<Byte>>)
    requires Holds(host, lines, g) && pieces != []
    ensures Holds(host, lines + Texts(host, g.decoder, pieces), Close(host, ConsumePieces(host, g, pieces)))
    decreases |pieces|
  {
    hide Holds, ConsumeLine, WithoutReturn;
    HoldsIgnoresTail(host, lines, g, pieces[0]);
    if |pieces| == 1 {
      assert pieces[..0] == [];
      if pieces[0] == [] {
        assert lines + [] == lines;
      } else {
        var open := g.(tail := pieces[0]);
        LineHolds(host, lines, open, pieces[0], false);
        HoldsIgnoresTail(host, lines + Texts(host, g.decoder, pieces), ConsumeLine(host, open, pieces[0], false), []);
      }
    } else {
      var next := ConsumeLine(host, g, pieces[0], true);
      var text := WithoutReturn(host.decode(g.decoder, pieces[0], true).0);
      LineHolds(host, lines, g, pieces[0], true);
      PiecesHold(host, lines + [text], next, pieces[1..]);
      assert pieces == [pieces[0]] + pieces[1..];
      ConsumePiecesStep(host, g, pieces[0], pieces[1..]);
      assert lines + [text] + Texts(host, next.decoder, pieces[1..]) == lines + Texts(host, g.decoder, pieces);
    }
  }

  /** The lines of an input. */
  ghost function LinesOf<D, V>(host: Host<D, V>, b: seq<Byte>): seq<Text> {
    Texts(host, host.initial, Split(b))
  }

  /** For every input, what the parser ends with is told by the lines of the input. */
  lemma ParseWholeReports<D, V>(host: Host<D, V>, b: seq<Byte>)
    ensures Holds(host, LinesOf(host, b), ParseWhole(host, b))
  {
    PiecesHold(host, [], Start(host), Split(b));
    assert [] + LinesOf(host, b) == LinesOf(host, b);
  }

  ghost function Rejoin(pieces: seq<seq<Byte>>): seq<Byte>
    requires pieces != []
    decreases |pieces|
  {
    if |pieces| == 1 then pieces[0] else pieces[0] + [0x0A] + Rejoin(pieces[1..])
  }

  /** The pieces are what lies between the newlines: joined by newlines they are the input. */
  lemma {:induction false} SplitRejoins(b: seq<Byte>)
    ensures Rejoin(Split(b)) == b && forall i :: 0 <= i < |Split(b)| ==> 0x0A !in Split(b)[i]
    decreases |b|
  {
    var i := IndexOf(b, NEWLINE);
    if i >= 0 {
      SplitRejoins(b[i + 1..]);
      FirstPiece(b, i, Split(b[i + 1..]));
    }
  }

  lemma FirstPiece(b: seq<Byte>, i: nat, rest: seq<seq<Byte>>)
    requires i < |b| && b[i] == NEWLINE && rest != [] && Rejoin(rest) == b[i + 1..]
    ensures Rejoin([b[..i]] + rest) == b
  {
    assert ([b[..i]] + rest)[1..] == rest;
    hide Rejoin;
    assert b == b[..i] + [NEWLINE] + b[i + 1..];
  }

  // ----- Text chunks -----

  function TrailingHighSurrogate(t: Text): (h: Text)
    ensures |h| <= |t| && h == t[|t| - |h|..]
    ensures h == [] || (|h| == 1 && IsHigh(h[0]))
    ensures h == [] && t != [] ==> !IsHigh(t[|t| - 1])
  {
    if t != [] && IsHigh(t[|t| - 1]) then t[|t| - 1..] else []
  }

  /** The surrogate held back after a list of chunks, and the octets handed on, as the code does it. */
  function Held(chunks: seq<Chunk>): (h: Text)
    ensures h == [] || (|h| == 1 && IsHigh(h[0]))
  {
    if chunks == [] then []
    else
      match chunks[|chunks| - 1]
      case TextChunk(t) => TrailingHighSurrogate(Held(chunks[..|chunks| - 1]) + t)
      case ByteChunk(_) => []
  }

  function Fed(chunks: seq<Chunk>): seq<Byte> {
    if chunks == [] then []
    else
      var before := chunks[..|chunks| - 1];
      match chunks[|chunks| - 1]
      case TextChunk(t) => Fed(before) + Encode(Sent(Held(before) + t))
      case ByteChunk(b) => Fed(before) + Encode(Held(before)) + b
  }

  /** The reference: neighbouring text chunks are joined into one string before it is encoded. */
  datatype Joined = Joined(closed: seq<Byte>, open: Text)

  function Join(chunks: seq<Chunk>): Joined {
    if chunks == [] then Joined([], [])
    else
      var before := Join(chunks[..|chunks| - 1]);
      match chunks[|chunks| - 1]
      case TextChunk(t) => before.(open := before.open + t)
      case ByteChunk(b) => Joined(before.closed + Encode(before.open) + b, [])
  }

  function WholeBytes(chunks: seq<Chunk>): seq<Byte> {
    Join(chunks).closed + Encode(Join(chunks).open)
  }

  ghost predicate HeldAgrees(chunks: seq<Chunk>) {
    && Held(chunks) == TrailingHighSurrogate(Join(chunks).open)
    && Fed(chunks) == Join(chunks).closed + Encode(Sent(Join(chunks).open))
  }

  lemma {:induction false} HeldIsOpenTrail(chunks: seq<Chunk>)
    ensures HeldAgrees(chunks)
    decreases |chunks|
  {
    if chunks == [] {
      EncodeNothing();
    } else {
      var before := chunks[..|chunks| - 1];
      HeldIsOpenTrail(before);
      match chunks[|chunks| - 1]
      case ByteChunk(_) => HeldAfterBytes(chunks);
      case TextChunk(_) => HeldAfterText(chunks);
    }
  }

  lemma HeldAfterBytes(chunks: seq<Chunk>)
    requires chunks != [] && chunks[|chunks| - 1].ByteChunk? && HeldAgrees(chunks[..|chunks| - 1])
    ensures HeldAgrees(chunks)
  {
    var before, b := chunks[..|chunks| - 1], chunks[|chunks| - 1].bytes;
    BytesUnfold(chunks, before, b);
    EncodeNothing();
    hide Held, Fed, Join, Encode;
    SentCut(Join(before).open);
    BytesStep(Join(before).closed, Encode(Sent(Join(before).open)), Encode(Held(before)), b);
  }

  lemma BytesUnfold(chunks: seq<Chunk>, before: seq<Chunk>, b: seq<Byte>)
    requires chunks != [] && before == chunks[..|chunks| - 1] && chunks[|chunks| - 1] == ByteChunk(b)
    ensures Join(chunks) == Joined(Join(before).closed + Encode(Join(before).open) + b, [])
    ensures Held(chunks) == [] && Fed(chunks) == Fed(before) + Encode(Held(before)) + b
  {
    hide Encode, TrailingHighSurrogate;
  }

  lemma BytesStep(closed: seq<Byte>, sent: seq<Byte>, held: seq<Byte>, b: seq<Byte>)
    ensures closed + sent + held + b == closed + (sent + held) + b + []
  {
    assert closed + sent + held == closed + (sent + held);
  }

  lemma HeldAfterText(chunks: seq<Chunk>)
    requires chunks != [] && chunks[|chunks| - 1].TextChunk? && HeldAgrees(chunks[..|chunks| - 1])
    ensures HeldAgrees(chunks)
  {
    var before, t := chunks[..|chunks| - 1], chunks[|chunks| - 1].text;
    TextUnfold(chunks, before, t);
    hide Held, Fed, Join;
    TextStep(Join(before).closed, Join(before).open, Fed(before), t);
  }

  lemma TextUnfold(chunks: seq<Chunk>, before: seq<Chunk>, t: Text)
    requires chunks != [] && before == chunks[..|chunks| - 1] && chunks[|chunks| - 1] == TextChunk(t)
    ensures Join(chunks) == Joined(Join(before).closed, Join(before).open + t)
    ensures Held(chunks) == TrailingHighSurrogate(Held(before) + t)
    ensures Fed(chunks) == Fed(before) + Encode(Sent(Held(before) + t))
  {
    hide Encode, TrailingHighSurrogate;
  }

  lemma TextStep(closed: seq<Byte>, open: Text, fed: seq<Byte>, t: Text)
    requires fed == closed + Encode(Sent(open))
    ensures TrailingHighSurrogate(TrailingHighSurrogate(open) + t) == TrailingHighSurrogate(open + t)
    ensures fed + Encode(Sent(TrailingHighSurrogate(open) + t)) == closed + Encode(Sent(open + t))
  {
    SentExtends(open, t);
    hide *;
    var a, b := Encode(Sent(open)), Encode(Sent(TrailingHighSurrogate(open) + t));
    assert closed + a + b == closed + (a + b);
  }

  lemma EncodeNothing()
    ensures Encode([]) == []
  {
  }

  /** The part of a string that is encoded at once: all but a trailing high surrogate. */
  function Sent(open: Text): Text {
    open[..|open| - |TrailingHighSurrogate(open)|]
  }

  /** What is held back never separates a surrogate pair from what was already encoded. */
  lemma SentCut(open: Text)
    ensures open == Sent(open) + TrailingHighSurrogate(open)
    ensures Encode(open) == Encode(Sent(open)) + Encode(TrailingHighSurrogate(open))
  {
    EncodeConcat(Sent(open), TrailingHighSurrogate(open));
  }

  lemma SentExtends(open: Text, t: Text)
    ensures var text := TrailingHighSurrogate(open) + t;
            TrailingHighSurrogate(open + t) == TrailingHighSurrogate(text)
            && Encode(Sent(open + t)) == Encode(Sent(open)) + Encode(Sent(text))
  {
    SentConcat(open, t);
    SentCutsClean(open, t);
    hide *;
    EncodeConcat(Sent(open), Sent(TrailingHighSurrogate(open) + t));
  }

  lemma SentConcat(open: Text, t: Text)
    ensures var text := TrailingHighSurrogate(open) + t;
            TrailingHighSurrogate(open + t) == TrailingHighSurrogate(text) && Sent(open + t) == Sent(open) + Sent(text)
  {
    hide *;
    TrailOfConcat(open, t);
    SentCut(open);
    SentCut(open + t);
    SentCut(TrailingHighSurrogate(open) + t);
    CutConcat(Sent(open), TrailingHighSurrogate(open), t, Sent(TrailingHighSurrogate(open) + t), TrailingHighSurrogate(open + t));
    SameFront(Sent(open + t), Sent(open) + Sent(TrailingHighSurrogate(open) + t), TrailingHighSurrogate(open + t));
  }

  lemma CutConcat(sent: Text, held: Text, t: Text, more: Text, trail: Text)
    requires held + t == more + trail
    ensures sent + held + t == sent + more + trail
  {
    assert sent + held + t == sent + (held + t) && sent + more + trail == sent + (more + trail);
  }

  lemma SameFront(a: Text, b: Text, end: Text)
    requires a + end == b + end
    ensures a == b
  {
    assert a == (a + end)[..|a + end| - |end|] && b == (b + end)[..|b + end| - |end|];
  }

  /** The trailing surrogate of a string depends on what was held back and what follows. */
  lemma TrailOfConcat(open: Text, t: Text)
    ensures TrailingHighSurrogate(open + t) == TrailingHighSurrogate(TrailingHighSurrogate(open) + t)
  {
    var text := TrailingHighSurrogate(open) + t;
    if t == [] {
      assert open + t == open && text == TrailingHighSurrogate(open);
    } else {
      assert (open + t)[|open + t| - 1] == text[|text| - 1] == t[|t| - 1];
    }
  }

  /** Either nothing is held and the sent part ends in no high surrogate, or what follows starts with one. */
  lemma SentCutsClean(open: Text, t: Text)
    ensures CleanCut(Sent(open), Sent(TrailingHighSurrogate(open) + t))
  {
    var text := TrailingHighSurrogate(open) + t;
    assert Sent(text) != [] ==> Sent(text)[0] == text[0];
  }

  /** For every list of chunks the octets consumed are those of the joined strings. */
  lemma FedBytesAreWholeBytes(chunks: seq<Chunk>)
    ensures Fed(chunks) + Encode(Held(chunks)) == WholeBytes(chunks)
  {
    HeldIsOpenTrail(chunks);
    hide Encode, Sent, TrailingHighSurrogate, Join, Held, Fed;
    SentCut(Join(chunks).open);
    var closed, sent, held := Join(chunks).closed, Encode(Sent(Join(chunks).open)), Encode(Held(chunks));
    assert closed + sent + held == closed + (sent + held);
  }

  function TextOf(chunks: seq<Chunk>): Text
    requires forall c <- chunks :: c.TextChunk?
  {
    if chunks == [] then [] else TextOf(chunks[..|chunks| - 1]) + chunks[|chunks| - 1].text
  }

  function BytesOf(chunks: seq<Chunk>): seq<Byte>
    requires forall c <- chunks :: c.ByteChunk?
  {
    if chunks == [] then [] else BytesOf(chunks[..|chunks| - 1]) + chunks[|chunks| - 1].bytes
  }

  /** Every way of cutting one string into text chunks gives the encoding of the whole string. */
  lemma {:induction false} TextCutIsInvisible(chunks: seq<Chunk>)
    requires forall c <- chunks :: c.TextChunk?
    ensures WholeBytes(chunks) == Encode(TextOf(chunks))
  {
    JoinOfText(chunks);
  }

  lemma {:induction false} JoinOfText(chunks: seq<Chunk>)
    requires forall c <- chunks :: c.TextChunk?
    ensures Join(chunks) == Joined([], TextOf(chunks))
    decreases |chunks|
  {
    if chunks != [] {
      JoinOfText(chunks[..|chunks| - 1]);
    }
  }

  /** Every way of cutting one octet stream gives the stream back. */
  lemma {:induction false} ByteCutIsInvisible(chunks: seq<Chunk>)
    requires forall c <- chunks :: c.ByteChunk?
    ensures WholeBytes(chunks) == BytesOf(chunks) && Join(chunks).open == []
    decreases |chunks|
  {
    if chunks != [] {
      var before := chunks[..|chunks| - 1];
      ByteCutIsInvisible(before);
      assert chunks[|chunks| - 1] in chunks;
      assert Join(before).closed + [] == Join(before).closed;
      assert Join(chunks).closed + [] == Join(chunks).closed;
    }
  }

  // ----- The parser object -----

  function Flat(parts: seq<seq<Byte>>): seq<Byte> {
    if parts == [] then [] else Flat(parts[..|parts| - 1]) + parts[|parts| - 1]
  }

  lemma FlatPush(parts: seq<seq<Byte>>, part: seq<Byte>)
    ensures Flat(parts + [part]) == Flat(parts) + part
  {
    assert (parts + [part])[..|parts|] == parts;
  }

  lemma {:induction false} FlatPrefix(parts: seq<seq<Byte>>, k: nat)
    requires k <= |parts|
    ensures |Flat(parts[..k])| <= |Flat(parts)| && Flat(parts)[..|Flat(parts[..k])|] == Flat(parts[..k])
    decreases |parts|
  {
    if k == |parts| {
      assert parts[..k] == parts;
    } else {
      FlatPrefix(parts[..|parts| - 1], k);
      assert parts[..|parts| - 1][..k] == parts[..k];
    }
  }

  class HeadlessJsonlParser<D, V> {
    const host: Host<D, V>
    var decoder: D
    var records: seq<Record<V>>
    var issues: seq<Issue>
    var pending: seq<seq<Byte>>
    var pendingLength: nat
    var pendingHighSurrogate: Text
    var line: nat
    var complete: bool
    ghost var chunks: seq<Chunk>  // everything pushed so far

    ghost function View(): Progress<D, V>
      reads this
    {
      Progress(Flat(pending), decoder, line, records, issues)
    }

    /** The pending buffers, without the history that `Valid` relates them to. */
    ghost predicate Buffered()
      reads this
    {
      pendingLength == |Flat(pending)| && forall part <- pending :: part != []
    }

    ghost predicate Valid()
      reads this
    {
      && Buffered()
      && (!complete ==> pendingHighSurrogate == Held(chunks) && View() == Feed(host, Start(host), Fed(chunks)))
      && (complete ==> View() == ParseWhole(host, WholeBytes(chunks)))
    }

    constructor (host: Host<D, V>)
      ensures Valid() && !complete && chunks == [] && this.host == host
    {
      this.host := host;
      decoder, records, issues := host.initial, [], [];
      pending, pendingLength, pendingHighSurrogate := [], 0, [];
      line, complete, chunks := 1, false, [];
    }

    /** Consumes one line: the pending buffers, copied into one, followed by `trailing`. */
    method ConsumeLineBytes(trailing: seq<Byte>)
      requires Buffered()
      modifies `decoder, `records, `issues, `pending, `pendingLength, `line
      ensures Buffered()
      ensures View() == ConsumeLine(host, old(View()), Flat(old(pending)) + trailing, true).(tail := [])
    {
      var lineBytes := trailing;
      if |pending| != 0 {
        ghost var before := pending;
        pending := pending + [trailing];
        FlatPush(before, trailing);
        lineBytes := Combine(pending, pendingLength + |trailing|);
        pending := [];
        pendingLength := 0;
      }
      assert lineBytes == Flat(old(pending)) + trailing;
      ConsumeDecoded(lineBytes, true);
    }

    /** Decodes one line and records what it holds. */
    method ConsumeDecoded(lineBytes: seq<Byte>, stream: bool)
      modifies `decoder, `records, `issues, `line
      ensures View() == ConsumeLine(host, old(View()), lineBytes, stream)
    {
      var (raw, next) := host.decode(decoder, lineBytes, stream);
      decoder := next;
      var text := StripCarriageReturn(raw);
      var currentLine := line;
      line := line + 1;
      if (forall i :: 0 <= i < |text| ==> IsSpaceUnit(text[i])) || !IsPotentiallyRelevant(text) {
        return;
      }
      match host.parse(text) {
        case Value(value, transient) =>
          if !transient {
            records := records + [Record(currentLine, value)];
          }
        case SyntaxError(message) =>
          var preview := if |text| > MAX_PARSE_ISSUE_PREVIEW_CHARS then text[..MAX_PARSE_ISSUE_PREVIEW_CHARS] else text;
          issues := issues + [Issue(currentLine, message, preview)];
      }
    }

    /** Hands octets to the line scanner. */
    method ScanBytes(bytes: seq<Byte>)
      requires Buffered()
      modifies `decoder, `records, `issues, `pending, `pendingLength, `line
      ensures Buffered()
      ensures View() == Feed(host, old(View()), bytes)
    {
      ghost var g := View();
      var start := 0;
      assert bytes[..0] == [] && bytes[0..0] == [] && g.tail + [] == g.tail;
      for i := 0 to |bytes|
        invariant Buffered() && 0 <= start <= i
        invariant Feed(host, g, bytes[..i]) == View().(tail := View().tail + bytes[start..i])
      {
        ghost var here := View();
        assert bytes[..i + 1] == bytes[..i] + [bytes[i]];
        FeedConcat(host, g, bytes[..i], [bytes[i]]);
        assert Feed(host, Feed(host, g, bytes[..i]), [bytes[i]]) == FeedByte(host, Feed(host, g, bytes[..i]), bytes[i]);
        if bytes[i] == NEWLINE {
          ConsumeIgnoresTail(host, here, here.tail + bytes[start..i], here.tail + bytes[start..i], true);
          ConsumeLineBytes(bytes[start..i]);
          start := i + 1;
          assert bytes[start..i + 1] == [] && View().tail + [] == View().tail;
        } else {
          assert here.tail + bytes[start..i] + [bytes[i]] == here.tail + bytes[start..i + 1];
        }
      }
      assert bytes[..|bytes|] == bytes;
      if start < |bytes| {
        FlatPush(pending, bytes[start..]);
        pending := pending + [bytes[start..]];
        pendingLength := pendingLength + |bytes[start..]|;
      } else {
        assert View().tail + bytes[start..] == View().tail;
      }
    }

    /** Replaces a held surrogate by the octets of U+FFFD; it can no longer find its partner. */
    method FlushHeldSurrogate()
      requires Buffered() && (pendingHighSurrogate == [] || (|pendingHighSurrogate| == 1 && IsHigh(pendingHighSurrogate[0])))
      modifies `pending, `pendingLength, `pendingHighSurrogate
      ensures Buffered() && pendingHighSurrogate == []
      ensures View() == Feed(host, old(View()), Encode(old(pendingHighSurrogate)))
    {
      if pendingHighSurrogate != [] {
        var bytes := Encode(pendingHighSurrogate);
        EncodeUnpaired(pendingHighSurrogate);
        pendingHighSurrogate := [];
        FlatPush(pending, bytes);
        pending := pending + [bytes];
        pendingLength := pendingLength + |bytes|;
        FeedPlain(host, old(View()), bytes);
      }
    }

    /** Encodes a string chunk, holding back a trailing high surrogate. */
    method EncodeTextChunk(chunk: Text) returns (bytes: seq<Byte>)
      modifies `pendingHighSurrogate
      ensures pendingHighSurrogate == TrailingHighSurrogate(old(pendingHighSurrogate) + chunk)
      ensures bytes == Encode(Sent(old(pendingHighSurrogate) + chunk))
    {
      var text := pendingHighSurrogate + chunk;
      pendingHighSurrogate := TrailingHighSurrogate(text);
      bytes := Encode(text[..|text| - |pendingHighSurrogate|]);
    }

    /** The octets to scan for a chunk, after which the parser has been fed one chunk more. */
    method BytesOfChunk(chunk: Chunk) returns (bytes: seq<Byte>)
      requires Valid() && !complete
      modifies `pending, `pendingLength, `pendingHighSurrogate
      ensures Buffered() && pendingHighSurrogate == Held(chunks + [chunk])
      ensures Feed(host, View(), bytes) == Feed(host, Start(host), Fed(chunks + [chunk]))
    {
      hide Held, Fed, Encode, TrailingHighSurrogate, ParseWhole, Feed;
      ghost var before, fed := chunks, Fed(chunks);
      ghost var all := before + [chunk];
      assert all[..|all| - 1] == before;
      match chunk {
        case TextChunk(t) =>
          TextUnfold(all, before, t);
          bytes := EncodeTextChunk(t);
          FeedConcat(host, Start(host), fed, bytes);
        case ByteChunk(b) =>
          BytesUnfold(all, before, b);
          FlushHeldSurrogate();
          bytes := b;
          FeedConcat(host, Start(host), fed, Encode(Held(before)));
          FeedConcat(host, Start(host), fed + Encode(Held(before)), b);
      }
    }

    /** Pushes one chunk; refused, without any change, once the parser is finished. */
    method Push(chunk: Chunk) returns (accepted: bool)
      requires Valid()
      modifies this
      ensures Valid() && complete == old(complete)
      ensures accepted == !old(complete)
      ensures chunks == if accepted then old(chunks) + [chunk] else old(chunks)
      ensures !accepted ==> View() == old(View())
    {
      hide Held, Fed, ParseWhole, Feed;
      if complete {
        return false;
      }
      accepted := true;
      var bytes := BytesOfChunk(chunk);
      ScanBytes(bytes);
      chunks := chunks + [chunk];
    }

    /** Ends the input: afterwards the parser holds what one pass over the whole input would hold. */
    method Finish()
      requires Valid()
      modifies this
      ensures Valid() && complete && chunks == old(chunks)
      ensures View() == ParseWhole(host, WholeBytes(chunks))
      ensures Holds(host, LinesOf(host, WholeBytes(chunks)), View())
    {
      hide Holds, LinesOf, ParseWhole, Feed, Fed, Held, Encode, Close, WholeBytes;
      ParseWholeReports(host, WholeBytes(chunks));
      if complete {
        return;
      }
      ghost var fed := Fed(chunks);
      FlushHeldSurrogate();
      ghost var g := View();
      assert g == Feed(host, Start(host), WholeBytes(chunks)) by {
        FeedConcat(host, Start(host), fed, Encode(Held(chunks)));
        FedBytesAreWholeBytes(chunks);
      }
      FinishPending();
      FeedChunksIsParseWhole(host, WholeBytes(chunks));
      complete := true;
    }

    /** Consumes what is pending as a last, unterminated line; nothing when nothing is pending. */
    method FinishPending()
      requires Buffered()
      modifies `decoder, `records, `issues, `pending, `pendingLength, `line
      ensures Buffered() && View() == Close(host, old(View()))
    {
      hide ConsumeLine;
      if |pending| > 0 {
        ghost var g := View();
        assert pending[|pending| - 1] in pending && g.tail != [];
        var combined := Combine(pending, pendingLength);
        pending := [];
        pendingLength := 0;
        ConsumeIgnoresTail(host, g, [], combined, false);
        ConsumeDecoded(combined, false);
      }
    }
  }

  /** Copies the parts, one after the other, into one buffer of the announced length. */
  method Combine(parts: seq<seq<Byte>>, length: nat) returns (bytes: seq<Byte>)
    requires length == |Flat(parts)|
    ensures bytes == Flat(parts)
  {
    var combined := new Byte[length];
    var offset := 0;
    FlatPrefix(parts, 0);
    for k := 0 to |parts|
      invariant offset == |Flat(parts[..k])| <= length
      invariant combined[..offset] == Flat(parts[..k])
    {
      var part := parts[k];
      assert parts[..k + 1] == parts[..k] + [part];
      FlatPush(parts[..k], part);
      FlatPrefix(parts, k + 1);
      forall i | 0 <= i < |part| {
        combined[offset + i] := part[i];
      }
      assert combined[..offset + |part|] == Flat(parts[..k]) + part;
      offset := offset + |part|;
    }
    assert parts[..|parts|] == parts;
    bytes := combined[..];
  }

  lemma OneChunk(input: Chunk)
    ensures WholeBytes([input]) == if input.TextChunk? then Encode(input.text) else input.bytes
  {
    if input.TextChunk? {
      TextCutIsInvisible([input]);
      assert TextOf([input]) == input.text;
    } else {
      ByteCutIsInvisible([input]);
      assert BytesOf([input]) == input.bytes;
    }
  }

  /** One push of the whole input, as the one-call entry point does it. */
  method ParseHeadlessJsonl<D, V>(host: Host<D, V>, input: Chunk) returns (parser: HeadlessJsonlParser<D, V>)
    ensures fresh(parser) && parser.complete
    ensures parser.View() == ParseWhole(host, WholeBytes([input]))
    ensures Holds(host, LinesOf(host, if input.TextChunk? then Encode(input.text) else input.bytes), parser.View())
  {
    hide Holds, LinesOf;
    OneChunk(input);
    parser := new HeadlessJsonlParser(host);
    var _ := parser.Push(input);
    parser.Finish();
  }
}

/**
 UTF-16 strings as JavaScript holds them, and their UTF-8 encoding as `Buffer.from(s, "utf8")`
 computes it: section 3 of RFC 3629, with every unpaired surrogate replaced by U+FFFD
 (section 3.9 of the Unicode Standard).
 */
module Utf {
  import opened Basics

  type CodeUnit = n: nat | n < 0x1_0000
  type Byte = n: nat | n < 0x100
  type Text = seq<CodeUnit>

  predicate IsHigh(c: CodeUnit) { 0xD800 <= c <= 0xDBFF }

  predicate IsLow(c: CodeUnit) { 0xDC00 <= c <= 0xDFFF }

  /** The scalar value named by a surrogate pair. */
  function Pair(high: CodeUnit, low: CodeUnit): (scalar: nat)
    requires IsHigh(high) && IsLow(low)
    ensures 0x1_0000 <= scalar < 0x11_0000
  {
    0x1_0000 + (high - 0xD800) * 0x400 + (low - 0xDC00)
  }

  /** Section 3 of RFC 3629: one to four octets for one scalar value. */
  function EncodeScalar(c: nat): (b: seq<Byte>)
    requires c < 0x11_0000
    ensures 1 <= |b| <= 4
  {
    var low, mid, high := c % 0x40, c / 0x40 % 0x40, c / 0x40 / 0x40 % 0x40;
    if c < 0x80 then [c]
    else if c < 0x800 then [0xC0 + c / 0x40, 0x80 + low]
    else if c < 0x1_0000 then [0xE0 + c / 0x40 / 0x40, 0x80 + mid, 0x80 + low]
    else [0xF0 + c / 0x40 / 0x40 / 0x40, 0x80 + high, 0x80 + mid, 0x80 + low]
  }

  /** The octets of U+FFFD, which stand for an unpaired surrogate. */
  const REPLACEMENT: seq<Byte> := [0xEF, 0xBF, 0xBD]

  /** How many code units the encoder takes at once: two for a surrogate pair, otherwise one. */
  function HeadLength(s: Text): (n: nat)
    requires s != []
    ensures 1 <= n <= |s|
  {
    if IsHigh(s[0]) && |s| > 1 && IsLow(s[1]) then 2 else 1
  }

  function EncodeHead(s: Text): seq<Byte>
    requires s != []
  {
    if HeadLength(s) == 2 then EncodeScalar(Pair(s[0], s[1]))
    else if IsHigh(s[0]) || IsLow(s[0]) then REPLACEMENT
    else EncodeScalar(s[0])
  }

  function Encode(s: Text): seq<Byte> {
    if s == [] then [] else EncodeHead(s) + Encode(s[HeadLength(s)..])
  }

  /** True when cutting a string between `a` and `b` does not cut a surrogate pair. */
  predicate CleanCut(a: Text, b: Text) {
    a != [] && b != [] && IsHigh(a[|a| - 1]) ==> !IsLow(b[0])
  }

  lemma {:induction false} EncodeConcat(a: Text, b: Text)
    requires CleanCut(a, b)
    ensures Encode(a + b) == Encode(a) + Encode(b)
    decreases |a|
  {
    if a == [] {
      assert a + b == b;
    } else {
      var n := HeadLength(a);
      HeadOfConcat(a, b);
      assert (a + b)[n..] == a[n..] + b;
      EncodeConcat(a[n..], b);
    }
  }

  lemma HeadOfConcat(a: Text, b: Text)
    requires a != [] && CleanCut(a, b)
    ensures HeadLength(a + b) == HeadLength(a) && EncodeHead(a + b) == EncodeHead(a)
  {
    assert (a + b)[0] == a[0];
    assert |a| > 1 ==> (a + b)[1] == a[1];
    assert |a| == 1 && b != [] ==> (a + b)[1] == b[0];
  }

  lemma EncodeUnpaired(h: Text)
    requires |h| == 1 && (IsHigh(h[0]) || IsLow(h[0]))
    ensures Encode(h) == REPLACEMENT
  {
    assert h[1..] == [];
  }

  /** A string without unpaired surrogates. */
  predicate WellFormed(s: Text) {
    if s == [] then true
    else if IsHigh(s[0]) then |s| > 1 && IsLow(s[1]) && WellFormed(s[2..])
    else !IsLow(s[0]) && WellFormed(s[1..])
  }

  /** The scalar value and the length of the octet group that starts `b`; the lead octet decides. */
  function DecodeScalar(b: seq<Byte>): (r: Option<(nat, nat)>)
    ensures r.Some? ==> 1 <= r.value.1 <= |b|
  {
    if b == [] then None
    else if b[0] < 0x80 then Some((b[0], 1))
    else if 0xC0 <= b[0] < 0xE0 && |b| >= 2 then
      Some((Bits(b[0], 0xC0) * 0x40 + Bits(b[1], 0x80), 2))
    else if 0xE0 <= b[0] < 0xF0 && |b| >= 3 then
      Some(((Bits(b[0], 0xE0) * 0x40 + Bits(b[1], 0x80)) * 0x40 + Bits(b[2], 0x80), 3))
    else if 0xF0 <= b[0] && |b| >= 4 then
      Some((((Bits(b[0], 0xF0) * 0x40 + Bits(b[1], 0x80)) * 0x40 + Bits(b[2], 0x80)) * 0x40 + Bits(b[3], 0x80), 4))
    else None
  }

  /** The payload of one octet, above its marker; nothing when it is below. */
  function Bits(b: Byte, marker: nat): nat {
    if b < marker then 0 else b - marker
  }

  function Units(scalar: nat): Option<Text> {
    if scalar < 0x1_0000 then Some([scalar])
    else if scalar < 0x11_0000 then
      Some([0xD800 + (scalar - 0x1_0000) / 0x400, 0xDC00 + (scalar - 0x1_0000) % 0x400])
    else None
  }

  function Decode(b: seq<Byte>): Option<Text> {
    if b == [] then Some([])
    else
      match DecodeScalar(b)
      case None => None
      case Some((scalar, n)) =>
        match (Units(scalar), Decode(b[n..]))
        case (Some(head), Some(tail)) => Some(head + tail)
        case _ => None
  }

  lemma DecodeScalarInverts(c: nat, rest: seq<Byte>)
    requires c < 0x11_0000
    ensures DecodeScalar(EncodeScalar(c) + rest) == Some((c, |EncodeScalar(c)|))
  {
    var q := c / 0x40;
    assert c == q * 0x40 + c % 0x40 && q == q / 0x40 * 0x40 + q % 0x40;
    assert q / 0x40 == q / 0x40 / 0x40 * 0x40 + q / 0x40 % 0x40;
  }

  lemma {:induction false} DecodeInvertsEncode(s: Text)
    requires WellFormed(s)
    ensures Decode(Encode(s)) == Some(s)
    decreases |s|
  {
    if s != [] {
      hide EncodeScalar, DecodeScalar, Units, EncodeHead, HeadLength, WellFormed;
      var c := HeadScalar(s);
      var k := HeadLength(s);
      assert (EncodeScalar(c) + Encode(s[k..]))[|EncodeScalar(c)|..] == Encode(s[k..]);
      DecodeScalarInverts(c, Encode(s[k..]));
      DecodeInvertsEncode(s[k..]);
      assert s[..k] + s[k..] == s;
    }
  }

  /** The scalar value at the head of a well-formed string, and what it stands for. */
  lemma HeadScalar(s: Text) returns (c: nat)
    requires s != [] && WellFormed(s)
    ensures c < 0x11_0000 && EncodeHead(s) == EncodeScalar(c)
    ensures Units(c) == Some(s[..HeadLength(s)]) && WellFormed(s[HeadLength(s)..])
  {
    c := if IsHigh(s[0]) then Pair(s[0], s[1]) else s[0];
    if IsHigh(s[0]) {
      assert (c - 0x1_0000) / 0x400 == s[0] - 0xD800 && (c - 0x1_0000) % 0x400 == s[1] - 0xDC00;
      assert s[..2] == [s[0], s[1]];
    } else {
      assert s[..1] == [s[0]];
    }
  }

  // ----- Which strings share an encoding -----

  const REPLACEMENT_UNIT: CodeUnit := 0xFFFD

  /** The string with every unpaired surrogate replaced by U+FFFD, which is how the encoder reads it. */
  function Repaired(s: Text): (r: Text)
    ensures WellFormed(r) && Encode(r) == Encode(s)
    ensures REPLACEMENT_UNIT !in r ==> r == s
    decreases |s|
  {
    if s == [] then []
    else if IsHigh(s[0]) && |s| > 1 && IsLow(s[1]) then
      RepairedPair(s);
      s[..2] + Repaired(s[2..])
    else
      RepairedSingle(s, Repaired(s[1..]));
      [if IsHigh(s[0]) || IsLow(s[0]) then REPLACEMENT_UNIT else s[0]] + Repaired(s[1..])
  }

  lemma RepairedPair(s: Text)
    requires |s| > 1 && IsHigh(s[0]) && IsLow(s[1])
    ensures forall rest: Text :: WellFormed(rest) ==> WellFormed(s[..2] + rest)
    ensures forall rest: Text :: Encode(s[..2] + rest) == EncodeHead(s) + Encode(rest)
    ensures s == s[..2] + s[2..]
  {
    forall rest: Text ensures (WellFormed(rest) ==> WellFormed(s[..2] + rest)) && Encode(s[..2] + rest) == EncodeHead(s) + Encode(rest) {
      assert (s[..2] + rest)[2..] == rest;
    }
  }

  lemma RepairedSingle(s: Text, rest: Text)
    requires s != [] && !(IsHigh(s[0]) && |s| > 1 && IsLow(s[1]))
    requires WellFormed(rest) && Encode(rest) == Encode(s[1..])
    ensures var r := [if IsHigh(s[0]) || IsLow(s[0]) then REPLACEMENT_UNIT else s[0]] + rest; WellFormed(r) && Encode(r) == Encode(s)
    ensures s == [s[0]] + s[1..]
  {
    var r := [if IsHigh(s[0]) || IsLow(s[0]) then REPLACEMENT_UNIT else s[0]] + rest;
    assert r[1..] == rest;
    ReplacementIsEncoded();
  }

  lemma ReplacementIsEncoded()
    ensures EncodeScalar(REPLACEMENT_UNIT) == REPLACEMENT
  {
  }

  /** A string that is the only one with its encoding: no unpaired surrogate and no U+FFFD. */
  predicate Distinctive(s: Text) {
    WellFormed(s) && REPLACEMENT_UNIT !in s
  }

  /** Another string with the same encoding: U+FFFD and an unpaired surrogate can stand for each other. */
  lemma {:induction false} Twin(s: Text) returns (t: Text)
    requires WellFormed(s) && REPLACEMENT_UNIT in s
    ensures t != s && Encode(t) == Encode(s)
    decreases |s|
  {
    if s[0] == REPLACEMENT_UNIT {
      t := [0xDC00] + s[1..];
      assert t[1..] == s[1..];
      ReplacementIsEncoded();
      assert t[0] != s[0];
    } else if IsHigh(s[0]) {
      var rest := Twin(s[2..]);
      RepairedPair(s);
      t := s[..2] + rest;
      assert t[2..] == rest;
    } else {
      assert s == [s[0]] + s[1..];
      var rest := Twin(s[1..]);
      t := [s[0]] + rest;
      assert t[1..] == rest;
    }
  }

  /** The encoding of a string is its own exactly when the string is distinctive. */
  lemma EncodingIsOwnIffDistinctive(s: Text)
    ensures (forall t: Text :: Encode(t) == Encode(s) ==> t == s) <==> Distinctive(s)
  {
    if Distinctive(s) {
      forall t: Text | Encode(t) == Encode(s) ensures t == s {
        OnlyString(s, t);
      }
    } else if WellFormed(s) {
      var t := Twin(s);
    } else {
      assert Encode(Repaired(s)) == Encode(s) && WellFormed(Repaired(s));
    }
  }

  lemma OnlyString(s: Text, t: Text)
    requires Distinctive(s) && Encode(t) == Encode(s)
    ensures t == s
  {
    hide Encode, Decode, Repaired, WellFormed;
    DecodeInvertsEncode(s);
    DecodeInvertsEncode(Repaired(t));
  }
}

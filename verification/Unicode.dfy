/**
  Text as the two peers see it. A JavaScript string is a sequence of UTF-16 code
  units and may hold lone surrogates; the wire carries UTF-8 (RFC 3629, sections
  3 and 4). Encoding replaces a lone surrogate by U+FFFD; decoding is fatal on
  anything that is not shortest-form UTF-8.
*/
module Unicode {
  import opened Basics

  type CodeUnit = x: int | 0 <= x < 0x10000

  type Scalar = x: int | 0 <= x < 0xD800 || 0xE000 <= x < 0x110000

  /** A JavaScript string. */
  type Text = seq<CodeUnit>

  const REPLACEMENT: Scalar := 0xFFFD

  predicate IsLead(u: CodeUnit) { 0xD800 <= u < 0xDC00 }

  predicate IsTrail(u: CodeUnit) { 0xDC00 <= u < 0xE000 }

  predicate StartsWithPair(s: Text) {
    |s| >= 2 && IsLead(s[0]) && IsTrail(s[1])
  }

  function Pair(lead: CodeUnit, trail: CodeUnit): Scalar
    requires IsLead(lead) && IsTrail(trail)
  {
    0x10000 + (lead - 0xD800) * 0x400 + (trail - 0xDC00)
  }

  // UTF-16 to scalar values, a lone surrogate becoming U+FFFD.
  function Scalars(s: Text): seq<Scalar> {
    if s == [] then []
    else if StartsWithPair(s) then [Pair(s[0], s[1])] + Scalars(s[2..])
    else [if IsLead(s[0]) || IsTrail(s[0]) then REPLACEMENT else s[0]] + Scalars(s[1..])
  }

  predicate WellFormed(s: Text) {
    if s == [] then true
    else if StartsWithPair(s) then WellFormed(s[2..])
    else !IsLead(s[0]) && !IsTrail(s[0]) && WellFormed(s[1..])
  }

  function Units(c: Scalar): Text {
    if c < 0x10000 then [c]
    else [0xD800 + (c - 0x10000) / 0x400, 0xDC00 + (c - 0x10000) % 0x400]
  }

  function FromScalars(cs: seq<Scalar>): Text {
    if cs == [] then [] else Units(cs[0]) + FromScalars(cs[1..])
  }

  /** Going through scalar values loses nothing exactly on well-formed text. */
  lemma {:induction false} Utf16RoundTrip(s: Text)
    ensures FromScalars(Scalars(s)) == s <==> WellFormed(s)
    ensures |FromScalars(Scalars(s))| == |s|
  {
    if s != [] {
      var cs := Scalars(s);
      if StartsWithPair(s) {
        Utf16RoundTrip(s[2..]);
        assert cs[1..] == Scalars(s[2..]);
        assert Units(cs[0]) == s[..2];
        assert s == s[..2] + s[2..];
      } else {
        Utf16RoundTrip(s[1..]);
        assert cs[1..] == Scalars(s[1..]);
        assert s == s[..1] + s[1..];
        var t := FromScalars(cs);
        assert t == Units(cs[0]) + FromScalars(cs[1..]);
        if t == s {
          assert t[0] == s[0] && t[1..] == s[1..];
        }
      }
    }
  }

  lemma {:induction false} ScalarsOfUnits(cs: seq<Scalar>)
    ensures Scalars(FromScalars(cs)) == cs
    ensures WellFormed(FromScalars(cs))
  {
    if cs != [] {
      ScalarsOfUnits(cs[1..]);
      var s := FromScalars(cs);
      if cs[0] < 0x10000 {
        assert s[1..] == FromScalars(cs[1..]);
      } else {
        assert s[2..] == FromScalars(cs[1..]);
        assert StartsWithPair(s) && Pair(s[0], s[1]) == cs[0];
      }
      assert cs == [cs[0]] + cs[1..];
    }
  }

  // ---------- UTF-8 ----------

  // The low six bits of n as a continuation byte.
  function Continuation(n: nat): (b: Byte)
    ensures IsContinuation(b) && b == 0x80 + n % 64
  {
    0x80 + n % 64
  }

  function EncodeScalar(c: Scalar): (b: Bytes)
    ensures 1 <= |b| <= 4
  {
    if c < 0x80 then [c]
    else if c < 0x800 then [0xC0 + c / 64, Continuation(c)]
    else if c < 0x10000 then [0xE0 + c / 64 / 64, Continuation(c / 64), Continuation(c)]
    else [0xF0 + c / 64 / 64 / 64, Continuation(c / 64 / 64), Continuation(c / 64), Continuation(c)]
  }

  predicate IsContinuation(b: Byte) { 0x80 <= b < 0xC0 }

  // n with six more bits, taken from a continuation byte.
  function Shift(n: int, b: Byte): int {
    n * 64 + (b - 0x80)
  }

  /** The first scalar of b, with the number of bytes it takes; None when b does not start with a valid sequence. */
  function DecodeScalar(b: Bytes): Option<(Scalar, nat)>
    requires b != []
  {
    var lead: int := b[0];
    if lead < 0x80 then Some((lead, 1))
    else if lead < 0xC2 then None
    else if lead < 0xE0 then
      if |b| >= 2 && IsContinuation(b[1]) then
        Some((Shift(lead - 0xC0, b[1]), 2))
      else None
    else if lead < 0xF0 then
      if |b| >= 3 && IsContinuation(b[1]) && IsContinuation(b[2])
         && (lead == 0xE0 ==> b[1] >= 0xA0) && (lead == 0xED ==> b[1] < 0xA0) then
        Some((Shift(Shift(lead - 0xE0, b[1]), b[2]), 3))
      else None
    else if lead < 0xF5 then
      if |b| >= 4 && IsContinuation(b[1]) && IsContinuation(b[2]) && IsContinuation(b[3])
         && (lead == 0xF0 ==> b[1] >= 0x90) && (lead == 0xF4 ==> b[1] < 0x90) then
        Some((Shift(Shift(Shift(lead - 0xF0, b[1]), b[2]), b[3]), 4))
      else None
    else None
  }

  function EncodeScalars(cs: seq<Scalar>): (b: Bytes)
    ensures b == [] <==> cs == []
  {
    if cs == [] then [] else EncodeScalar(cs[0]) + EncodeScalars(cs[1..])
  }

  function DecodeScalars(b: Bytes): Option<seq<Scalar>>
  {
    if b == [] then Some([])
    else match DecodeScalar(b)
      case None => None
      case Some((c, n)) =>
        match DecodeScalars(b[n..])
        case None => None
        case Some(cs) => Some([c] + cs)
  }

  lemma ShiftInverse(n: nat)
    ensures Shift(n / 64, Continuation(n)) == n
  {
  }

  lemma InverseShift(n: nat, b: Byte)
    requires IsContinuation(b)
    ensures Shift(n, b) >= 0 && Shift(n, b) / 64 == n && Continuation(Shift(n, b)) == b
  {
  }

  lemma ScalarRoundTrip(c: Scalar, rest: Bytes)
    ensures DecodeScalar(EncodeScalar(c) + rest) == Some((c, |EncodeScalar(c)|))
  {
    var e := EncodeScalar(c);
    var b := e + rest;
    assert forall i | 0 <= i < |e| :: b[i] == e[i];
    ShiftInverse(c);
    ShiftInverse(c / 64);
    ShiftInverse(c / 64 / 64);
  }

  lemma ScalarCanonical(b: Bytes)
    requires b != [] && DecodeScalar(b).Some?
    ensures var (c, n) := DecodeScalar(b).value; n <= |b| && b[..n] == EncodeScalar(c)
  {
    var lead: int := b[0];
    if 0xC2 <= lead < 0xE0 {
      InverseShift(lead - 0xC0, b[1]);
    } else if 0xE0 <= lead < 0xF0 {
      InverseShift(lead - 0xE0, b[1]);
      InverseShift(Shift(lead - 0xE0, b[1]), b[2]);
    } else if 0xF0 <= lead {
      InverseShift(lead - 0xF0, b[1]);
      InverseShift(Shift(lead - 0xF0, b[1]), b[2]);
      InverseShift(Shift(Shift(lead - 0xF0, b[1]), b[2]), b[3]);
    }
  }

  lemma {:induction false} Utf8RoundTrip(cs: seq<Scalar>)
    ensures DecodeScalars(EncodeScalars(cs)) == Some(cs)
  {
    if cs != [] {
      ScalarRoundTrip(cs[0], EncodeScalars(cs[1..]));
      Utf8RoundTrip(cs[1..]);
      assert EncodeScalars(cs)[|EncodeScalar(cs[0])|..] == EncodeScalars(cs[1..]);
      assert cs == [cs[0]] + cs[1..];
    }
  }

  lemma PrependScalar(b: Bytes, n: nat, c: Scalar, cs: seq<Scalar>)
    requires n <= |b| && b[..n] == EncodeScalar(c) && b[n..] == EncodeScalars(cs)
    ensures EncodeScalars([c] + cs) == b
  {
    assert ([c] + cs)[1..] == cs;
    assert b == b[..n] + b[n..];
  }

  lemma {:induction false} Utf8Canonical(b: Bytes)
    requires DecodeScalars(b).Some?
    ensures EncodeScalars(DecodeScalars(b).value) == b
  {
    if b != [] {
      var (c, n) := DecodeScalar(b).value;
      ScalarCanonical(b);
      Utf8Canonical(b[n..]);
      PrependScalar(b, n, c, DecodeScalars(b[n..]).value);
    }
  }

  // ---------- strings on the wire ----------

  function EncodeText(s: Text): (b: Bytes)
    ensures b == [] <==> s == []
  {
    EncodeScalars(Scalars(s))
  }

  function DecodeText(b: Bytes): Option<Text> {
    match DecodeScalars(b)
    case None => None
    case Some(cs) => Some(FromScalars(cs))
  }

  /** What the peer reads back: s with each lone surrogate replaced. */
  function Normalized(s: Text): (t: Text)
    ensures |t| == |s|
    ensures t == s <==> WellFormed(s)
  {
    Utf16RoundTrip(s);
    FromScalars(Scalars(s))
  }

  lemma TextRoundTrip(s: Text)
    ensures DecodeText(EncodeText(s)) == Some(Normalized(s))
    ensures DecodeText(EncodeText(s)) == Some(s) <==> WellFormed(s)
    ensures EncodeText(Normalized(s)) == EncodeText(s)
  {
    Utf8RoundTrip(Scalars(s));
    ScalarsOfUnits(Scalars(s));
  }

  /** Every accepted byte string is the one encoding of a well-formed text. */
  lemma TextCanonical(b: Bytes)
    requires DecodeText(b).Some?
    ensures WellFormed(DecodeText(b).value)
    ensures EncodeText(DecodeText(b).value) == b
  {
    Utf8Canonical(b);
    ScalarsOfUnits(DecodeScalars(b).value);
  }

  /** What a peer reads is always well-formed text. */
  lemma NormalizedIsWellFormed(s: Text)
    ensures WellFormed(Normalized(s)) && EncodeText(Normalized(s)) == EncodeText(s)
  {
    TextRoundTrip(s);
    TextCanonical(EncodeText(s));
  }
}

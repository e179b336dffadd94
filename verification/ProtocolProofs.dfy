/** The laws of the wire format: round trip, canonical form, framing. */
module ProtocolProofs {
  import opened Basics
  import opened Unicode
  import opened Protocol

  // b is as long as c or longer, and as long only when it is c.
  predicate NoShorter(c: Bytes, b: Bytes) {
    |c| <= |b| && (|c| == |b| ==> c == b)
  }

  lemma NoShorterConcat(c: Bytes, b: Bytes, c': Bytes, b': Bytes)
    requires NoShorter(c, b) && NoShorter(c', b')
    ensures NoShorter(c + c', b + b')
  {
  }

  // ---------- varuints ----------

  // The values a varuint may still hold from byte number i on are those below this.
  function Room32(i: nat): nat
    requires i < MAX_VARUINT_BYTES
    decreases MAX_VARUINT_BYTES - i
  {
    if i == 4 then 0x10 else 0x80 * Room32(i + 1)
  }

  lemma Room32FromTheStart()
    ensures Room32(0) == TWO_TO_THE_32
  {
    assert Room32(3) == 0x800;
    assert Room32(2) == 0x4_0000;
    assert Room32(1) == 0x200_0000;
  }

  lemma {:induction false} ReadVarFromRoundTrip(n: nat, i: nat, rest: Bytes)
    requires i < MAX_VARUINT_BYTES && n < Room32(i)
    ensures ReadVarFrom(VarUint(n) + rest, i) == Got(n, |VarUint(n)|)
    decreases MAX_VARUINT_BYTES - i
  {
    if n >= 0x80 {
      ReadVarFromRoundTrip(n / 0x80, i + 1, rest);
      assert (VarUint(n) + rest)[1..] == VarUint(n / 0x80) + rest;
    }
  }

  lemma ReadVarRoundTrip(n: nat, rest: Bytes)
    requires n < TWO_TO_THE_32
    ensures ReadVar(VarUint(n) + rest) == Got(n, |VarUint(n)|)
  {
    Room32FromTheStart();
    ReadVarFromRoundTrip(n, 0, rest);
  }

  /** n in exactly size bytes: the shortest form stretched with zero groups. */
  function Padded(n: nat, size: nat): (b: Bytes)
    requires size > 0
    ensures |b| == size
  {
    if size == 1 then [n % 0x80] else [0x80 + n % 0x80] + Padded(n / 0x80, size - 1)
  }

  lemma {:induction false} ShortestIsPadded(v: nat)
    ensures Padded(v, |VarUint(v)|) == VarUint(v)
  {
    if v >= 0x80 {
      ShortestIsPadded(v / 0x80);
    }
  }

  lemma {:induction false} ReadVarIsPadded(b: Bytes, i: nat)
    requires i < MAX_VARUINT_BYTES && ReadVarFrom(b, i).Got?
    ensures var Got(v, n) := ReadVarFrom(b, i);
            v < Room32(i) && |VarUint(v)| <= n && b[..n] == Padded(v, n) && NoShorter(VarUint(v), b[..n])
    decreases MAX_VARUINT_BYTES - i
  {
    var Got(v, n) := ReadVarFrom(b, i);
    if b[0] >= 0x80 {
      ReadVarIsPadded(b[1..], i + 1);
      var v' := ReadVarFrom(b[1..], i + 1).value;
      assert v % 0x80 == b[0] % 0x80 && v / 0x80 == v';
      assert b[..n] == [b[0]] + b[1..][..n - 1];
    }
    ShortestIsPadded(v);
  }

  lemma ShorterByOneGroup(v: nat)
    ensures if v < 0x80 then |VarUint(v)| == |VarUint(v / 0x80)| == 1 else |VarUint(v)| == 1 + |VarUint(v / 0x80)|
  {
  }

  lemma GroupFits(v: nat, i: nat)
    requires i < 4 && v < Room32(i)
    ensures v / 0x80 < Room32(i + 1)
  {
  }

  // One group with its continuation bit, then the rest of the value.
  lemma ReadOneGroup(b: Bytes, i: nat, low: nat, high: nat, n: nat)
    requires i < 4 && low < 0x80 && b != [] && b[0] == 0x80 + low && ReadVarFrom(b[1..], i + 1) == Got(high, n)
    ensures ReadVarFrom(b, i) == Got(low + 0x80 * high, n + 1)
  {
  }

  lemma ReadLastGroup(b: Bytes, i: nat, low: nat)
    requires i < MAX_VARUINT_BYTES && low < Room32(i) && low < 0x80 && b != [] && b[0] == low
    ensures ReadVarFrom(b, i) == Got(low, 1)
  {
  }

  lemma {:induction false} PaddedIsRead(v: nat, n: nat, i: nat, rest: Bytes)
    requires i < MAX_VARUINT_BYTES && v < Room32(i) && |VarUint(v)| <= n <= MAX_VARUINT_BYTES - i
    ensures ReadVarFrom(Padded(v, n) + rest, i) == Got(v, n)
    decreases n
  {
    ShorterByOneGroup(v);
    hide VarUint, Room32, ReadVarFrom;
    var b := Padded(v, n) + rest;
    if n > 1 {
      GroupFits(v, i);
      PaddedIsRead(v / 0x80, n - 1, i + 1, rest);
      assert b[1..] == Padded(v / 0x80, n - 1) + rest;
      ReadOneGroup(b, i, v % 0x80, v / 0x80, n - 1);
    } else {
      ReadLastGroup(b, i, v);
    }
  }

  /**
    A 32-bit value has exactly one accepted varuint of each length from its
    shortest to five bytes, and nothing else is accepted.
  */
  lemma VarUintForms(b: Bytes, v: nat)
    ensures ReadVar(b) == Got(v, |b|)
        <==> v < TWO_TO_THE_32 && |VarUint(v)| <= |b| <= MAX_VARUINT_BYTES && b == Padded(v, |b|)
  {
    Room32FromTheStart();
    if ReadVar(b) == Got(v, |b|) {
      ReadVarIsPadded(b, 0);
      assert b[..|b|] == b;
    }
    if v < TWO_TO_THE_32 && |VarUint(v)| <= |b| <= MAX_VARUINT_BYTES && b == Padded(v, |b|) {
      PaddedIsRead(v, |b|, 0, []);
      assert b + [] == b;
    }
  }

  // A varuint is decided by its own bytes, and every cut inside it is a truncation.
  lemma {:induction false} ReadVarLocal(b: Bytes, i: nat, cut: nat, ext: Bytes)
    requires i < MAX_VARUINT_BYTES && ReadVarFrom(b, i).Got?
    requires cut <= |b|
    ensures cut < ReadVarFrom(b, i).size ==> ReadVarFrom(b[..cut], i) == Fail(Truncated)
    ensures cut >= ReadVarFrom(b, i).size ==> ReadVarFrom(b[..cut], i) == ReadVarFrom(b, i)
    ensures ReadVarFrom(b + ext, i) == ReadVarFrom(b, i)
    decreases MAX_VARUINT_BYTES - i
  {
    if b[0] >= 0x80 {
      ReadVarLocal(b[1..], i + 1, if cut == 0 then 0 else cut - 1, ext);
      assert (b + ext)[1..] == b[1..] + ext;
      if cut > 0 {
        assert b[..cut][1..] == b[1..][..cut - 1];
      }
    }
  }

  // ---------- strings ----------

  lemma ReadStringRoundTrip(s: Text, maxBytes: nat, tooLong: Reason, rest: Bytes)
    requires |EncodeText(s)| <= maxBytes < TWO_TO_THE_32
    ensures ReadString(LengthPrefixed(EncodeText(s)) + rest, maxBytes, tooLong)
         == Got(Normalized(s), |LengthPrefixed(EncodeText(s))|)
  {
    var e := EncodeText(s);
    var b := LengthPrefixed(e) + rest;
    assert b == VarUint(|e|) + (e + rest);
    ReadVarRoundTrip(|e|, e + rest);
    assert b[|VarUint(|e|)|..|VarUint(|e|)| + |e|] == e;
    TextRoundTrip(s);
  }

  // What a string read makes of its length field; the rest of ReadString.
  function ReadStringGiven(b: Bytes, len: nat, n: nat, maxBytes: nat, tooLong: Reason): Read<Text>
    requires n <= |b|
  {
    if len > maxBytes then Fail(tooLong)
    else if n + len > |b| then Fail(Truncated)
    else match DecodeText(b[n..n + len])
      case None => Fail(InvalidString)
      case Some(s) => Got(s, n + len)
  }

  lemma ReadStringSplit(b: Bytes, len: nat, n: nat, maxBytes: nat, tooLong: Reason)
    requires ReadVar(b) == Got(len, n)
    ensures n <= |b| && ReadString(b, maxBytes, tooLong) == ReadStringGiven(b, len, n, maxBytes, tooLong)
  {
  }

  lemma GivenLocal(b: Bytes, len: nat, n: nat, maxBytes: nat, tooLong: Reason, cut: nat, ext: Bytes)
    requires n <= cut <= |b| && ReadStringGiven(b, len, n, maxBytes, tooLong).Got?
    ensures cut < n + len ==> ReadStringGiven(b[..cut], len, n, maxBytes, tooLong) == Fail(Truncated)
    ensures cut >= n + len
        ==> ReadStringGiven(b[..cut], len, n, maxBytes, tooLong) == ReadStringGiven(b, len, n, maxBytes, tooLong)
    ensures ReadStringGiven(b + ext, len, n, maxBytes, tooLong) == ReadStringGiven(b, len, n, maxBytes, tooLong)
  {
    assert (b + ext)[n..n + len] == b[n..n + len];
    if cut >= n + len {
      assert b[..cut][n..n + len] == b[n..n + len];
    }
  }

  lemma ReadStringLocal(b: Bytes, maxBytes: nat, tooLong: Reason, cut: nat, ext: Bytes)
    requires ReadString(b, maxBytes, tooLong).Got? && cut <= |b|
    ensures cut < ReadString(b, maxBytes, tooLong).size ==> ReadString(b[..cut], maxBytes, tooLong) == Fail(Truncated)
    ensures cut >= ReadString(b, maxBytes, tooLong).size
        ==> ReadString(b[..cut], maxBytes, tooLong) == ReadString(b, maxBytes, tooLong)
    ensures ReadString(b + ext, maxBytes, tooLong) == ReadString(b, maxBytes, tooLong)
  {
    var Got(len, n) := ReadVar(b);
    ReadVarLocal(b, 0, cut, ext);
    ReadStringSplit(b, len, n, maxBytes, tooLong);
    ReadStringSplit(b + ext, len, n, maxBytes, tooLong);
    GivenLocal(b, len, n, maxBytes, tooLong, if cut >= n then cut else n, ext);
    if cut >= n {
      ReadStringSplit(b[..cut], len, n, maxBytes, tooLong);
    }
  }

  // A string that was read is the canonical form stretched only in its length field.
  lemma ReadStringCanonical(b: Bytes, maxBytes: nat, tooLong: Reason)
    requires ReadString(b, maxBytes, tooLong).Got?
    ensures var Got(s, n) := ReadString(b, maxBytes, tooLong);
            WellFormed(s) && |EncodeText(s)| <= maxBytes && NoShorter(LengthPrefixed(EncodeText(s)), b[..n])
  {
    hide ReadVarFrom, DecodeText;
    var Got(len, k) := ReadVar(b);
    ReadVarIsPadded(b, 0);
    ReadStringSplit(b, len, k, maxBytes, tooLong);
    TextCanonical(b[k..k + len]);
    StretchedLength(b, len, k);
  }

  lemma StretchedLength(b: Bytes, len: nat, k: nat)
    requires k + len <= |b| && NoShorter(VarUint(len), b[..k])
    ensures NoShorter(LengthPrefixed(b[k..k + len]), b[..k + len])
  {
    NoShorterConcat(VarUint(len), b[..k], b[k..k + len], b[k..k + len]);
    assert b[..k + len] == b[..k] + b[k..k + len];
  }

  // ---------- whole messages ----------

  /** Encoding succeeds exactly on messages within the stated bounds. */
  lemma EncodeSucceedsExactly(m: Message)
    ensures Encode(m).Ok? <==> WithinBounds(m)
  {
  }

  lemma DecodeOfParts(wireId: nat, room: Text, tail: Bytes)
    requires wireId <= 4 && 1 <= |EncodeText(room)| <= MAX_ROOM_NAME_BYTES
    ensures Decode(Header(wireId) + LengthPrefixed(EncodeText(room)) + tail) == DecodeTail(wireId, Normalized(room), tail)
  {
    hide DecodeTail, ReadVarFrom, VarUint;
    var str := LengthPrefixed(EncodeText(room));
    var b := Header(wireId) + str + tail;
    var b1 := VarUint(wireId) + (str + tail);
    ReadVarRoundTrip(PROTOCOL_VERSION, b1);
    assert b == VarUint(PROTOCOL_VERSION) + b1;
    assert b[|VarUint(PROTOCOL_VERSION)|..] == b1;
    ReadVarRoundTrip(wireId, str + tail);
    assert b1[|VarUint(wireId)|..] == str + tail;
    ReadStringRoundTrip(room, MAX_ROOM_NAME_BYTES, RoomTooLong, tail);
    assert (str + tail)[|str|..] == tail;
  }

  lemma TailRoundTrip(m: Message)
    requires WithinBounds(m)
    ensures DecodeTail(WireId(m), Normalized(m.room), EncodeTail(m).value) == Ok(NormalizedMessage(m))
  {
    var tail := EncodeTail(m).value;
    assert tail + [] == tail;
    match m
    case Subscribe(room, grant) =>
      ReadStringRoundTrip(grant, MAX_GRANT_BYTES, GrantTooLong, []);
    case RoomClosed(room, code) =>
      ReadVarRoundTrip(code, []);
    case _ =>
  }

  /** Decoding what was encoded gives the message back, lone surrogates replaced. */
  lemma RoundTripNormalized(m: Message)
    requires WithinBounds(m)
    ensures Encode(m).Ok? && Decode(Encode(m).value) == Ok(NormalizedMessage(m))
  {
    DecodeOfParts(WireId(m), m.room, EncodeTail(m).value);
    TailRoundTrip(m);
  }

  /** The round trip gives the message itself exactly when its text is well formed. */
  lemma RoundTrip(m: Message)
    requires WithinBounds(m)
    ensures Encode(m).Ok?
    ensures Decode(Encode(m).value) == Ok(m) <==> WellFormedMessage(m)
  {
    RoundTripNormalized(m);
  }

  /** A lone surrogate is the one thing the wire does not carry. */
  lemma LoneSurrogateIsReplaced()
    ensures var m := Subscribed([0xD800]);
            Encode(m).Ok? && Decode(Encode(m).value) == Ok(Subscribed([REPLACEMENT]))
  {
    var m := Subscribed([0xD800]);
    assert Scalars(m.room) == [REPLACEMENT];
    assert EncodeScalars([REPLACEMENT]) == EncodeScalar(REPLACEMENT);
    assert FromScalars([REPLACEMENT]) == [REPLACEMENT];
    RoundTripNormalized(m);
  }

  // ---------- canonical form ----------

  lemma TailCanonical(wireId: nat, room: Text, b: Bytes)
    requires wireId <= 4 && DecodeTail(wireId, room, b).Ok?
    ensures var m := DecodeTail(wireId, room, b).value;
            && m.room == room && WireId(m) == wireId && (m.Subscribe? ==> WellFormed(m.grant))
            && EncodeTail(m).Ok? && NoShorter(EncodeTail(m).value, b)
  {
    assert b[..|b|] == b;
    if wireId == 0 {
      ReadStringCanonical(b, MAX_GRANT_BYTES, GrantTooLong);
    } else if wireId == 4 {
      ReadVarIsPadded(b, 0);
    }
  }

  // The frame of m from the room name on, and from the message type on.
  function BodyOf(m: Message): Bytes
    requires WithinBounds(m)
  {
    LengthPrefixed(EncodeText(m.room)) + EncodeTail(m).value
  }

  lemma BodyCanonical(wireId: nat, b: Bytes)
    requires wireId <= 4 && DecodeBody(wireId, b).Ok?
    ensures var m := DecodeBody(wireId, b).value;
            WireId(m) == wireId && WellFormedMessage(m) && WithinBounds(m) && NoShorter(BodyOf(m), b)
  {
    hide DecodeTail, ReadString, VarUint;
    var Got(room, n) := ReadString(b, MAX_ROOM_NAME_BYTES, RoomTooLong);
    ReadStringCanonical(b, MAX_ROOM_NAME_BYTES, RoomTooLong);
    TailCanonical(wireId, room, b[n..]);
    var m := DecodeTail(wireId, room, b[n..]).value;
    NoShorterConcat(LengthPrefixed(EncodeText(room)), b[..n], EncodeTail(m).value, b[n..]);
    assert b[..n] + b[n..] == b;
  }

  lemma VarThenCanonical(b: Bytes, c: Bytes)
    requires ReadVar(b).Got? && NoShorter(c, b[ReadVar(b).size..])
    ensures NoShorter(VarUint(ReadVar(b).value) + c, b)
  {
    var Got(v, n) := ReadVar(b);
    ReadVarIsPadded(b, 0);
    NoShorterConcat(VarUint(v), b[..n], c, b[n..]);
    assert b[..n] + b[n..] == b;
  }

  lemma TypedCanonical(b: Bytes)
    requires DecodeTyped(b).Ok?
    ensures var m := DecodeTyped(b).value;
            WellFormedMessage(m) && WithinBounds(m) && NoShorter(VarUint(WireId(m)) + BodyOf(m), b)
  {
    hide DecodeBody, BodyOf, ReadVarFrom;
    var Got(wireId, n) := ReadVar(b);
    BodyCanonical(wireId, b[n..]);
    VarThenCanonical(b, BodyOf(DecodeTyped(b).value));
  }

  lemma EncodeOfParts(m: Message)
    requires WithinBounds(m)
    ensures Encode(m) == Ok(VarUint(PROTOCOL_VERSION) + (VarUint(WireId(m)) + BodyOf(m)))
  {
    assert Encode(m).value == VarUint(PROTOCOL_VERSION) + (VarUint(WireId(m)) + BodyOf(m));
  }

  lemma FrameCanonical(b: Bytes)
    requires Decode(b).Ok?
    ensures var m := Decode(b).value;
            WellFormedMessage(m) && WithinBounds(m)
            && NoShorter(VarUint(PROTOCOL_VERSION) + (VarUint(WireId(m)) + BodyOf(m)), b)
  {
    hide DecodeTyped, BodyOf, ReadVarFrom;
    TypedCanonical(b[ReadVar(b).size..]);
    VarThenCanonical(b, VarUint(WireId(Decode(b).value)) + BodyOf(Decode(b).value));
  }

  /**
    Every accepted frame re-encodes, to a frame that decodes to the same message
    and is no longer, and equally long only when it is the very same frame.
  */
  lemma CanonicalForm(b: Bytes)
    requires Decode(b).Ok?
    ensures var m := Decode(b).value;
            && WellFormedMessage(m) && Encode(m).Ok?
            && Decode(Encode(m).value) == Ok(m)
            && |Encode(m).value| <= |b|
            && (|Encode(m).value| == |b| ==> Encode(m).value == b)
  {
    hide Decode, BodyOf;
    var m := Decode(b).value;
    FrameCanonical(b);
    EncodeOfParts(m);
    RoundTrip(m);
  }

  /** The decoder is not injective on bytes: an overlong varuint is accepted. */
  lemma OverlongIsAccepted()
    ensures var b: Bytes := [0x81, 0x00, 0x03, 0x01, 0x72];
            Decode(b) == Ok(Unsubscribe([0x72])) && Encode(Unsubscribe([0x72])) == Ok([0x01, 0x03, 0x01, 0x72])
  {
    var b: Bytes := [0x81, 0x00, 0x03, 0x01, 0x72];
    assert Padded(1, 2) == [0x81, 0x00];
    Room32FromTheStart();
    PaddedIsRead(1, 2, 0, [0x03, 0x01, 0x72]);
    assert b == Padded(1, 2) + [0x03, 0x01, 0x72];
    var str := LengthPrefixed(EncodeText([0x72]));
    assert Scalars([0x72]) == [0x72];
    assert EncodeScalars([0x72]) == EncodeScalar(0x72) + [];
    assert str == [0x01, 0x72];
    var m := Unsubscribe([0x72]);
    assert Header(3) == [0x01, 0x03];
    assert Encode(m) == Ok(Header(3) + str + []);
    assert Header(3) + str + [] == [0x01, 0x03, 0x01, 0x72];
    RoundTrip(m);
    var c: Bytes := [0x01, 0x03, 0x01, 0x72];
    assert c == VarUint(1) + [0x03, 0x01, 0x72];
    ReadVarRoundTrip(1, [0x03, 0x01, 0x72]);
    assert c[1..] == b[2..];
  }

  // ---------- framing ----------

  // How many bytes of an accepted frame come before its last field, read from each point on.
  function BodyPrefix(b: Bytes): (p: nat)
    requires ReadString(b, MAX_ROOM_NAME_BYTES, RoomTooLong).Got?
    ensures 0 < p <= |b|
  {
    ReadString(b, MAX_ROOM_NAME_BYTES, RoomTooLong).size
  }

  function TypedPrefix(b: Bytes): (p: nat)
    requires DecodeTyped(b).Ok?
    ensures 0 < p <= |b|
  {
    var n := ReadVar(b).size;
    n + BodyPrefix(b[n..])
  }

  function PrefixSize(b: Bytes): (p: nat)
    requires Decode(b).Ok?
    ensures 0 < p <= |b|
  {
    var n := ReadVar(b).size;
    n + TypedPrefix(b[n..])
  }

  lemma VarExtended(b: Bytes, ext: Bytes)
    requires ReadVar(b).Got?
    ensures ReadVar(b + ext) == ReadVar(b)
    ensures var n := ReadVar(b).size; (b + ext)[n..] == b[n..] + ext
  {
    ReadVarLocal(b, 0, 0, ext);
  }

  lemma VarCut(b: Bytes, cut: nat)
    requires ReadVar(b).Got? && cut <= |b|
    ensures var n := ReadVar(b).size;
            if cut < n then ReadVar(b[..cut]) == Fail(Truncated)
            else ReadVar(b[..cut]) == ReadVar(b) && b[..cut][n..] == b[n..][..cut - n]
  {
    ReadVarLocal(b, 0, cut, []);
  }

  lemma BodyExtended(wireId: nat, b: Bytes, ext: Bytes)
    requires wireId <= 4 && DecodeBody(wireId, b).Ok?
    ensures var m, p := DecodeBody(wireId, b).value, BodyPrefix(b);
            && WireId(m) == wireId
            && DecodeTail(wireId, m.room, b[p..]) == Ok(m)
            && DecodeBody(wireId, b + ext) == DecodeTail(wireId, m.room, b[p..] + ext)
  {
    hide DecodeTail, ReadString, ReadVarFrom;
    var Got(room, p) := ReadString(b, MAX_ROOM_NAME_BYTES, RoomTooLong);
    TailCanonical(wireId, room, b[p..]);
    ReadStringLocal(b, MAX_ROOM_NAME_BYTES, RoomTooLong, 0, ext);
    assert (b + ext)[p..] == b[p..] + ext;
  }

  lemma BodyCut(wireId: nat, b: Bytes, cut: nat)
    requires wireId <= 4 && DecodeBody(wireId, b).Ok? && cut <= |b|
    ensures var m, p := DecodeBody(wireId, b).value, BodyPrefix(b);
            WireId(m) == wireId
            && DecodeBody(wireId, b[..cut])
            == (if cut < p then Err(Truncated) else DecodeTail(wireId, m.room, b[p..cut]))
  {
    hide DecodeTail, ReadString, ReadVarFrom;
    var Got(room, p) := ReadString(b, MAX_ROOM_NAME_BYTES, RoomTooLong);
    TailCanonical(wireId, room, b[p..]);
    ReadStringLocal(b, MAX_ROOM_NAME_BYTES, RoomTooLong, cut, []);
    if cut >= p {
      assert b[..cut][p..] == b[p..cut];
    }
  }

  lemma TypedExtended(b: Bytes, ext: Bytes)
    requires DecodeTyped(b).Ok?
    ensures var m, p := DecodeTyped(b).value, TypedPrefix(b);
            && DecodeTail(WireId(m), m.room, b[p..]) == Ok(m)
            && DecodeTyped(b + ext) == DecodeTail(WireId(m), m.room, b[p..] + ext)
  {
    hide DecodeTail, BodyPrefix, ReadString, ReadVarFrom;
    var Got(wireId, n) := ReadVar(b);
    VarExtended(b, ext);
    BodyExtended(wireId, b[n..], ext);
    assert b[n..][BodyPrefix(b[n..])..] == b[TypedPrefix(b)..];
  }

  lemma TypedCut(b: Bytes, cut: nat)
    requires DecodeTyped(b).Ok? && cut <= |b|
    ensures var m, p := DecodeTyped(b).value, TypedPrefix(b);
            DecodeTyped(b[..cut])
            == (if cut < p then Err(Truncated) else DecodeTail(WireId(m), m.room, b[p..cut]))
  {
    hide DecodeTail, BodyPrefix, ReadString, ReadVarFrom;
    var Got(wireId, n) := ReadVar(b);
    VarCut(b, cut);
    BodyCut(wireId, b[n..], 0);
    if cut >= n {
      BodyCut(wireId, b[n..], cut - n);
      if cut >= TypedPrefix(b) {
        assert b[n..][BodyPrefix(b[n..])..cut - n] == b[TypedPrefix(b)..cut];
      }
    }
  }

  // What the decoder makes of an extension of an accepted frame.
  lemma DecodeExtended(b: Bytes, ext: Bytes)
    requires Decode(b).Ok?
    ensures var m, p := Decode(b).value, PrefixSize(b);
            && DecodeTail(WireId(m), m.room, b[p..]) == Ok(m)
            && Decode(b + ext) == DecodeTail(WireId(m), m.room, b[p..] + ext)
  {
    hide DecodeTyped, DecodeTail, TypedPrefix, ReadVarFrom;
    var n := ReadVar(b).size;
    VarExtended(b, ext);
    TypedExtended(b[n..], ext);
    assert b[n..][TypedPrefix(b[n..])..] == b[PrefixSize(b)..];
  }

  // What the decoder makes of a cut of an accepted frame.
  lemma DecodeCut(b: Bytes, cut: nat)
    requires Decode(b).Ok? && cut <= |b|
    ensures var m, p := Decode(b).value, PrefixSize(b);
            Decode(b[..cut]) == (if cut < p then Err(Truncated) else DecodeTail(WireId(m), m.room, b[p..cut]))
  {
    hide DecodeTyped, DecodeTail, TypedPrefix, ReadVarFrom;
    var n := ReadVar(b).size;
    VarCut(b, cut);
    if cut >= n {
      TypedCut(b[n..], cut - n);
      if cut >= PrefixSize(b) {
        assert b[n..][TypedPrefix(b[n..])..cut - n] == b[PrefixSize(b)..cut];
      }
    }
  }

  lemma TailCut(wireId: nat, room: Text, b: Bytes, cut: nat)
    requires wireId <= 4 && wireId != 2 && DecodeTail(wireId, room, b).Ok? && cut < |b|
    ensures DecodeTail(wireId, room, b[..cut]) == Err(Truncated)
  {
    if wireId == 0 {
      ReadStringLocal(b, MAX_GRANT_BYTES, GrantTooLong, cut, []);
    } else if wireId == 4 {
      VarCut(b, cut);
    }
  }

  lemma TailExtended(wireId: nat, room: Text, b: Bytes, ext: Bytes)
    requires wireId <= 4 && wireId != 2 && DecodeTail(wireId, room, b).Ok? && ext != []
    ensures DecodeTail(wireId, room, b + ext) == Err(TrailingData)
  {
    if wireId == 0 {
      ReadStringLocal(b, MAX_GRANT_BYTES, GrantTooLong, 0, ext);
    } else if wireId == 4 {
      VarExtended(b, ext);
    }
  }

  /** Every proper prefix of an accepted frame without a raw tail is rejected as truncated. */
  lemma PrefixIsTruncated(b: Bytes, cut: nat)
    requires Decode(b).Ok? && !Decode(b).value.Data? && cut < |b|
    ensures Decode(b[..cut]) == Err(Truncated)
  {
    hide Decode, DecodeTail, PrefixSize;
    var m, p := Decode(b).value, PrefixSize(b);
    DecodeExtended(b, []);
    DecodeCut(b, cut);
    if cut >= p {
      TailCut(WireId(m), m.room, b[p..], cut - p);
      assert b[p..cut] == b[p..][..cut - p];
    }
  }

  /** Every proper extension of an accepted frame without a raw tail is rejected as trailing data. */
  lemma ExtensionIsTrailing(b: Bytes, ext: Bytes)
    requires Decode(b).Ok? && !Decode(b).value.Data? && ext != []
    ensures Decode(b + ext) == Err(TrailingData)
  {
    hide Decode, DecodeTail, PrefixSize;
    var m, p := Decode(b).value, PrefixSize(b);
    DecodeExtended(b, ext);
    TailExtended(WireId(m), m.room, b[p..], ext);
  }

  // The payload that is left of a data frame cut at the given byte, the payload starting at byte p.
  function CutPayload(room: Text, payload: Bytes, p: nat, cut: nat): Result<Message, Reason>
    requires cut <= p + |payload|
  {
    if cut < p then Err(Truncated)
    else if cut == p then Err(EmptyPayload)
    else Ok(Data(room, payload[..cut - p]))
  }

  lemma DataTailCut(room: Text, payload: Bytes, b: Bytes, p: nat, cut: nat)
    requires p <= cut <= |b| && payload == b[p..]
    ensures DecodeTail(2, room, b[p..cut]) == CutPayload(room, payload, p, cut)
  {
    assert b[p..cut] == payload[..cut - p];
  }

  lemma PayloadIsTheRest(b: Bytes)
    requires Decode(b).Ok? && Decode(b).value.Data?
    ensures b[PrefixSize(b)..] == Decode(b).value.payload
  {
    hide Decode, PrefixSize;
    DecodeExtended(b, []);
  }

  /** A data frame has no end of its own: extending it extends the payload. */
  lemma DataFrameExtended(b: Bytes, ext: Bytes)
    requires Decode(b).Ok? && Decode(b).value.Data?
    ensures var Data(room, payload) := Decode(b).value;
            Decode(b + ext) == Ok(Data(room, payload + ext))
  {
    hide Decode, PrefixSize;
    DecodeExtended(b, ext);
  }

  /** Cutting a data frame cuts its payload, until none is left or the room name is cut. */
  lemma DataFrameCut(b: Bytes, cut: nat)
    requires Decode(b).Ok? && Decode(b).value.Data? && cut <= |b|
    ensures var m := Decode(b).value;
            && 0 < PrefixSize(b) == |b| - |m.payload|
            && Decode(b[..cut]) == CutPayload(m.room, m.payload, PrefixSize(b), cut)
  {
    hide Decode, DecodeTail, PrefixSize;
    var m := Decode(b).value;
    PayloadIsTheRest(b);
    DecodeCut(b, cut);
    if cut >= PrefixSize(b) {
      DataTailCut(m.room, m.payload, b, PrefixSize(b), cut);
    }
  }
}

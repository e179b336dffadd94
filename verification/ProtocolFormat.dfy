/** The frame format byte by byte, in the numbers of its documentation, and why a frame or a message is refused. */
module ProtocolFormat {
  import opened Basics
  import opened Unicode
  import opened Protocol
  import opened ProtocolProofs

  // ---------- what frames look like ----------

  // The number that groups of seven bits stand for, the lowest group first.
  function Groups(b: Bytes): nat {
    if b == [] then 0 else b[0] % 128 + 128 * Groups(b[1..])
  }

  /** Little-endian base 128: the top bit marks every byte but the last, and the last is not a needless zero. */
  predicate IsLeb128(b: Bytes, n: nat) {
    && b != []
    && (forall i | 0 <= i < |b| :: b[i] >= 128 <==> i < |b| - 1)
    && (|b| > 1 ==> b[|b| - 1] != 0)
    && Groups(b) == n
  }

  /** A varuint is the shortest such form. */
  lemma {:induction false} VarUintIsLeb128(n: nat)
    ensures IsLeb128(VarUint(n), n)
  {
    if n >= 0x80 {
      var rest := VarUint(n / 0x80);
      var b := VarUint(n);
      VarUintIsLeb128(n / 0x80);
      assert b[1..] == rest && forall i | 1 <= i < |b| :: b[i] == rest[i - 1];
    } else {
      assert Groups([]) == 0;
    }
  }

  /** A string field: its length in bytes, and the bytes. */
  ghost predicate IsField(b: Bytes, s: Text) {
    exists length :: IsLeb128(length, |EncodeText(s)|) && b == length + EncodeText(s)
  }

  lemma FieldOf(s: Text)
    ensures IsField(LengthPrefixed(EncodeText(s)), s)
  {
    VarUintIsLeb128(|EncodeText(s)|);
    hide IsLeb128, EncodeText;
  }

  /** The bytes of each message: version 1, its type, the room, and then the fields of that type. */
  ghost predicate IsFrame(b: Bytes, m: Message, room: Bytes, tail: Bytes) {
    && b == [1, match m case Subscribe(_, _) => 0 case Subscribed(_) => 1 case Data(_, _) => 2 case Unsubscribe(_) => 3 case RoomClosed(_, _) => 4]
            + room + tail
    && IsField(room, m.room)
    && match m
       case Subscribe(_, grant) => IsField(tail, grant)
       case Data(_, payload) => tail == payload
       case RoomClosed(_, code) => code >= 0 && IsLeb128(tail, code)
       case _ => tail == []
  }

  /** What is encoded is such a frame. */
  lemma EncodesAsDocumented(m: Message)
    requires WithinBounds(m)
    ensures Encode(m).Ok? && exists room, tail :: IsFrame(Encode(m).value, m, room, tail)
  {
    var room := LengthPrefixed(EncodeText(m.room));
    var tail := EncodeTail(m).value;
    assert Header(WireId(m)) == [1, WireId(m)];
    FieldOf(m.room);
    match m {
      case Subscribe(_, grant) => FieldOf(grant);
      case RoomClosed(_, code) => VarUintIsLeb128(code);
      case _ =>
    }
    hide EncodeText, IsLeb128, IsField;
    assert IsFrame(Encode(m).value, m, room, tail);
  }

  /** One frame of each type, the wire's promise to peers already deployed. */
  lemma FramesOnTheWire()
    ensures Encode(Subscribe([0x61], [0x62])) == Ok([1, 0, 1, 0x61, 1, 0x62])
    ensures Encode(Subscribed([0x61])) == Ok([1, 1, 1, 0x61])
    ensures Encode(Data([0x61], [0, 0xFF])) == Ok([1, 2, 1, 0x61, 0, 0xFF])
    ensures Encode(Unsubscribe([0x61])) == Ok([1, 3, 1, 0x61])
    ensures Encode(RoomClosed([0x61], 4004)) == Ok([1, 4, 1, 0x61, 0xA4, 0x1F])
  {
    assert EncodeText([0x61]) == [0x61] && EncodeText([0x62]) == [0x62];
    assert VarUint(1) == [1];
    assert LengthPrefixed([0x61]) == [1, 0x61] && LengthPrefixed([0x62]) == [1, 0x62];
    assert Header(0) == [1, 0] && Header(1) == [1, 1] && Header(2) == [1, 2] && Header(3) == [1, 3] && Header(4) == [1, 4];
    assert [1, 0] + [1, 0x61] + [1, 0x62] == [1, 0, 1, 0x61, 1, 0x62];
    assert [1, 1] + [1, 0x61] + [] == [1, 1, 1, 0x61] && [1, 3] + [1, 0x61] + [] == [1, 3, 1, 0x61];
    assert [1, 2] + [1, 0x61] + [0, 0xFF] == [1, 2, 1, 0x61, 0, 0xFF];
    assert [1, 4] + [1, 0x61] + [0xA4, 0x1F] == [1, 4, 1, 0x61, 0xA4, 0x1F];
    assert VarUint(4004) == [0xA4] + VarUint(31) == [0xA4, 0x1F];
  }

  /** The four lengths of UTF-8 (section 3 of RFC 3629): a letter, one with an accent, the euro sign, and a pair of surrogates. */
  lemma TextOnTheWire()
    ensures EncodeText([0x61, 0xE9, 0x20AC, 0xD83D, 0xDE00]) == [0x61, 0xC3, 0xA9, 0xE2, 0x82, 0xAC, 0xF0, 0x9F, 0x98, 0x80]
  {
    var s: Text := [0x61, 0xE9, 0x20AC, 0xD83D, 0xDE00];
    assert s[1..] == [0xE9, 0x20AC, 0xD83D, 0xDE00] && s[1..][1..] == [0x20AC, 0xD83D, 0xDE00] && s[1..][1..][1..] == [0xD83D, 0xDE00];
    assert Scalars([0xD83D, 0xDE00]) == [0x1F600] by { assert [0xD83D, 0xDE00][2..] == []; }
    assert Scalars([0x20AC, 0xD83D, 0xDE00]) == [0x20AC, 0x1F600];
    assert Scalars([0xE9, 0x20AC, 0xD83D, 0xDE00]) == [0xE9, 0x20AC, 0x1F600];
    assert Scalars(s) == [0x61, 0xE9, 0x20AC, 0x1F600];
    assert EncodeScalar(0x61) == [0x61] && EncodeScalar(0xE9) == [0xC3, 0xA9] && EncodeScalar(0x20AC) == [0xE2, 0x82, 0xAC];
    assert EncodeScalar(0x1F600) == [0xF0, 0x9F, 0x98, 0x80];
    assert EncodeScalars([0x1F600]) == [0xF0, 0x9F, 0x98, 0x80];
    assert EncodeScalars([0x20AC, 0x1F600]) == [0xE2, 0x82, 0xAC] + [0xF0, 0x9F, 0x98, 0x80];
    assert EncodeScalars([0xE9, 0x20AC, 0x1F600]) == [0xC3, 0xA9] + ([0xE2, 0x82, 0xAC] + [0xF0, 0x9F, 0x98, 0x80]);
  }

  // ---------- why a message is refused ----------

  /** The reason names the field that is out of its bounds, the room before what follows it. */
  lemma RefusedMessages(m: Message)
    ensures Encode(m) == Err(EmptyRoom) <==> m.room == []
    ensures Encode(m) == Err(RoomTooLong) <==> |EncodeText(m.room)| > 512
    ensures var fits := m.room != [] && |EncodeText(m.room)| <= 512;
            && (Encode(m) == Err(EmptyGrant) <==> fits && m.Subscribe? && m.grant == [])
            && (Encode(m) == Err(GrantTooLong) <==> fits && m.Subscribe? && |EncodeText(m.grant)| > 8192)
            && (Encode(m) == Err(EmptyPayload) <==> fits && m.Data? && m.payload == [])
            && (Encode(m) == Err(InvalidCloseCode) <==> fits && m.RoomClosed? && !(4000 <= m.code <= 4999))
  {
    assert EncodeText([]) == [];
  }

  // ---------- why a frame is refused ----------

  /** The header: the version is checked before the type, the type before anything that follows. */
  lemma RefusedHeaders(n: nat, rest: Bytes)
    requires n < 0x1_0000_0000
    ensures n != 1 ==> Decode(VarUint(n) + rest) == Err(UnsupportedVersion)
    ensures n > 4 ==> Decode([1] + (VarUint(n) + rest)) == Err(UnknownMessageType)
    ensures Decode([]) == Err(Truncated) && Decode([1]) == Err(Truncated)
    ensures Decode([0xFF, 0xFF, 0xFF, 0xFF, 0x10] + rest) == Err(VaruintTooLarge)
  {
    ReadVarRoundTrip(n, rest);
    VersionIsRead(VarUint(n) + rest);
    TooLarge(rest);
    hide VarUint;
    assert [1][1..] == [];
  }

  lemma VersionIsRead(b: Bytes)
    ensures Decode([1] + b) == DecodeTyped(b)
  {
    assert VarUint(1) == [1];
    ReadVarRoundTrip(1, b);
    assert ([1] + b)[1..] == b;
  }

  lemma TooLarge(rest: Bytes)
    ensures ReadVar([0xFF, 0xFF, 0xFF, 0xFF, 0x10] + rest) == Fail(VaruintTooLarge)
  {
    var b: Bytes := [0xFF, 0xFF, 0xFF, 0xFF, 0x10] + rest;
    assert b[1..] == [0xFF, 0xFF, 0xFF, 0x10] + rest && b[1..][1..] == [0xFF, 0xFF, 0x10] + rest;
    assert b[1..][1..][1..] == [0xFF, 0x10] + rest && b[1..][1..][1..][1..] == [0x10] + rest;
    assert ReadVarFrom(b[1..][1..][1..][1..], 4) == Fail(VaruintTooLarge);
    assert ReadVarFrom(b[1..][1..][1..], 3) == Fail(VaruintTooLarge);
    assert ReadVarFrom(b[1..][1..], 2) == Fail(VaruintTooLarge);
    assert ReadVarFrom(b[1..], 1) == Fail(VaruintTooLarge);
  }

  lemma TypeIsRead(wireId: nat, b: Bytes)
    requires wireId <= 4
    ensures Decode([1, wireId] + b) == DecodeBody(wireId, b)
  {
    assert [1, wireId] + b == [1] + ([wireId] + b);
    VersionIsRead([wireId] + b);
    assert VarUint(wireId) == [wireId];
    ReadVarRoundTrip(wireId, b);
    assert ([wireId] + b)[1..] == b;
    hide DecodeBody;
  }

  /** The room: its length is checked before its bytes are looked for, then that it is text, then that it is not empty. */
  lemma RefusedRooms(wireId: nat, n: nat, text: Bytes, rest: Bytes)
    requires wireId <= 4 && n < 0x1_0000_0000
    ensures n > 512 ==> Decode([1, wireId] + (VarUint(n) + rest)) == Err(RoomTooLong)
    ensures |rest| < n <= 512 ==> Decode([1, wireId] + (VarUint(n) + rest)) == Err(Truncated)
    ensures |text| <= 512 && DecodeText(text).None? ==> Decode([1, wireId] + (VarUint(|text|) + (text + rest))) == Err(InvalidString)
    ensures Decode([1, wireId] + (VarUint(0) + rest)) == Err(EmptyRoom)
  {
    hide VarUint, DecodeTail, DecodeText;
    TypeIsRead(wireId, VarUint(n) + rest);
    TypeIsRead(wireId, VarUint(0) + rest);
    ReadVarRoundTrip(n, rest);
    ReadVarRoundTrip(0, rest);
    assert (VarUint(0) + rest)[|VarUint(0)|..|VarUint(0)| + 0] == [];
    NoText();
    if |text| <= 512 {
      TypeIsRead(wireId, VarUint(|text|) + (text + rest));
      ReadVarRoundTrip(|text|, text + rest);
      assert (VarUint(|text|) + (text + rest))[|VarUint(|text|)|..|VarUint(|text|)| + |text|] == text;
    }
  }

  lemma NoText()
    ensures DecodeText([]) == Some([])
  {
  }

  /** The fields after a room that is in order. */
  lemma RefusedFields(room: Text, n: nat, rest: Bytes)
    requires 1 <= |EncodeText(room)| <= 512 && n < 0x1_0000_0000
    ensures var named := LengthPrefixed(EncodeText(room));
            && Decode([1, 0] + named + (VarUint(0) + rest)) == Err(EmptyGrant)
            && (n > 8192 ==> Decode([1, 0] + named + (VarUint(n) + rest)) == Err(GrantTooLong))
            && Decode([1, 2] + named + []) == Err(EmptyPayload)
            && (n < 4000 || n > 4999 ==> Decode([1, 4] + named + (VarUint(n) + rest)) == Err(InvalidCloseCode))
  {
    var named := LengthPrefixed(EncodeText(room));
    assert Header(0) == [1, 0] && Header(2) == [1, 2] && Header(4) == [1, 4];
    hide VarUint, EncodeText, Normalized, LengthPrefixed, Header, DecodeText, Decode;
    DecodeOfParts(0, room, VarUint(0) + rest);
    DecodeOfParts(0, room, VarUint(n) + rest);
    DecodeOfParts(2, room, []);
    DecodeOfParts(4, room, VarUint(n) + rest);
    ReadVarRoundTrip(n, rest);
    ReadVarRoundTrip(0, rest);
    assert (VarUint(0) + rest)[|VarUint(0)|..|VarUint(0)| + 0] == [];
    NoText();
  }
}

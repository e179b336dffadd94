/** The encoder and the reader as the running code has them: a growing buffer and an advancing position. */
module ProtocolCode {
  import opened Basics
  import opened Unicode
  import opened Protocol

  class Encoder {
    var buffer: Bytes

    constructor ()
      ensures buffer == []
    {
      buffer := [];
    }

    method WriteVarUint(num: nat)
      modifies this
      ensures buffer == old(buffer) + VarUint(num)
    {
      var n := num;
      while n > 0x7F
        invariant buffer + VarUint(n) == old(buffer) + VarUint(num)
      {
        buffer := buffer + [0x80 + n % 0x80];
        n := n / 0x80;
      }
      buffer := buffer + [n];
    }

    method WriteUint8Array(bytes: Bytes)
      modifies this
      ensures buffer == old(buffer) + bytes
    {
      buffer := buffer + bytes;
    }

    method WriteString(value: Text, maxBytes: nat, tooLong: Reason) returns (thrown: Option<Reason>)
      modifies this
      ensures match EncodeString(value, maxBytes, tooLong)
              case Ok(bytes) => thrown == None && buffer == old(buffer) + bytes
              case Err(reason) => thrown == Some(reason) && buffer == old(buffer)
    {
      var encoded := EncodeText(value);
      if |encoded| > maxBytes {
        return Some(tooLong);
      }
      WriteVarUint(|encoded|);
      WriteUint8Array(encoded);
      return None;
    }
  }

  // The fields after the room name, written in the order of the format.
  method WriteFields(encoder: Encoder, message: Message) returns (thrown: Option<Reason>)
    modifies encoder
    ensures match EncodeTail(message)
            case Ok(bytes) => thrown == None && encoder.buffer == old(encoder.buffer) + bytes
            case Err(reason) => thrown == Some(reason)
  {
    hide VarUint, EncodeString;
    match message
    case Subscribe(_, grant) =>
      if grant == [] {
        return Some(EmptyGrant);
      }
      thrown := encoder.WriteString(grant, MAX_GRANT_BYTES, GrantTooLong);
    case Data(_, payload) =>
      if payload == [] {
        return Some(EmptyPayload);
      }
      encoder.WriteUint8Array(payload);
      thrown := None;
    case RoomClosed(_, code) =>
      if !ValidCloseCode(code) {
        return Some(InvalidCloseCode);
      }
      encoder.WriteVarUint(code);
      thrown := None;
    case _ =>
      thrown := None;
  }

  method EncodeMessage(message: Message) returns (r: Result<Bytes, Reason>)
    ensures r == Encode(message)
  {
    if message.room == [] {
      return Err(EmptyRoom);
    }
    hide VarUint, EncodeString, EncodeTail;
    var encoder := new Encoder();
    encoder.WriteVarUint(PROTOCOL_VERSION);
    encoder.WriteVarUint(WireId(message));
    assert encoder.buffer == Header(WireId(message));
    hide Header, WireId;
    var thrown := encoder.WriteString(message.room, MAX_ROOM_NAME_BYTES, RoomTooLong);
    if thrown.Some? {
      return Err(thrown.value);
    }
    thrown := WriteFields(encoder, message);
    if thrown.Some? {
      return Err(thrown.value);
    }
    return Ok(encoder.buffer);
  }

  // The weight of byte number i of a varuint.
  function Weight(i: nat): nat {
    if i == 0 then 1 else 0x80 * Weight(i - 1)
  }

  // What byte number i adds to a varuint.
  function Digit(i: nat, byte: Byte): nat {
    Weight(i) * (byte % 0x80)
  }

  // A varuint read whose first bytes have already contributed value, the rest read from byte number i on.
  function Resumed(value: nat, i: nat, taken: nat, rest: Read<nat>): Read<nat> {
    match rest
    case Fail(reason) => Fail(reason)
    case Got(v, n) => Got(value + Weight(i) * v, taken + n)
  }

  lemma ResumeOneByte(value: nat, i: nat, taken: nat, b: Bytes)
    requires i < 4 && b != [] && b[0] >= 0x80
    ensures Resumed(value, i, taken, ReadVarFrom(b, i))
         == Resumed(value + Digit(i, b[0]), i + 1, taken + 1, ReadVarFrom(b[1..], i + 1))
  {
    match ReadVarFrom(b[1..], i + 1)
    case Fail(_) =>
    case Got(v, n) =>
      Distribute(Weight(i), b[0] % 0x80, v);
  }

  lemma ResumeStart(b: Bytes)
    ensures Resumed(0, 0, 0, ReadVarFrom(b, 0)) == ReadVar(b)
  {
  }

  // The reading stops at this byte.
  lemma ResumeLast(value: nat, i: nat, taken: nat, b: Bytes)
    requires i < MAX_VARUINT_BYTES
    requires b == [] || b[0] < 0x80 || i == 4
    ensures Resumed(value, i, taken, ReadVarFrom(b, i))
         == if b == [] then Fail(Truncated)
            else if i == 4 && b[0] > 0x0F then Fail(VaruintTooLarge)
            else Got(value + Digit(i, b[0]), taken + 1)
  {
  }

  lemma Distribute(w: nat, low: nat, high: nat)
    ensures w * (low + 0x80 * high) == w * low + 0x80 * w * high
  {
  }

  class Reader {
    const arr: Bytes
    var pos: nat

    ghost predicate Valid()
      reads this
    {
      pos <= |arr|
    }

    // The bytes not read yet.
    ghost function Rest(): Bytes
      requires Valid()
      reads this
    {
      arr[pos..]
    }

    constructor (data: Bytes)
      ensures Valid() && arr == data && pos == 0
    {
      arr := data;
      pos := 0;
    }

    method ReadVarUint() returns (r: Result<nat, Reason>)
      requires Valid()
      modifies this`pos
      ensures Valid()
      ensures match ReadVar(old(Rest()))
              case Got(value, n) => r == Ok(value) && pos == old(pos) + n
              case Fail(reason) => r == Err(reason)
    {
      ghost var start := Rest();
      ResumeStart(start);
      hide Resumed, Digit, ReadVarFrom;
      var value: nat := 0;
      var byteIndex: nat := 0;
      // The loop bound of five is never the reason to leave: byte number 4 always returns.
      while true
        invariant byteIndex < MAX_VARUINT_BYTES
        invariant Valid() && pos == old(pos) + byteIndex
        invariant ReadVar(start) == Resumed(value, byteIndex, byteIndex, ReadVarFrom(Rest(), byteIndex))
        decreases MAX_VARUINT_BYTES - byteIndex
      {
        if Rest() == [] || Rest()[0] < 0x80 || byteIndex == 4 {
          ResumeLast(value, byteIndex, byteIndex, Rest());
        }
        if pos >= |arr| {
          return Err(Truncated);
        }
        var byte := arr[pos];
        if byteIndex == 4 {
          if byte >= 0x80 {
            return Err(VaruintTooLarge);
          }
          if byte > 0x0F {
            return Err(VaruintTooLarge);
          }
        }
        ghost var before := Rest();
        pos := pos + 1;
        assert before[1..] == Rest();
        if byte >= 0x80 {
          ResumeOneByte(value, byteIndex, byteIndex, before);
        }
        value := value + Digit(byteIndex, byte);
        if byte < 0x80 {
          return Ok(value);
        }
        byteIndex := byteIndex + 1;
      }
    }

    method ReadUint8Array(length: nat) returns (bytes: Bytes)
      requires Valid() && pos + length <= |arr|
      modifies this`pos
      ensures Valid() && pos == old(pos) + length && bytes == old(Rest())[..length]
    {
      bytes := arr[pos..pos + length];
      pos := pos + length;
    }

    method ReadText(maxBytes: nat, tooLong: Reason) returns (r: Result<Text, Reason>)
      requires Valid()
      modifies this`pos
      ensures Valid()
      ensures match ReadString(old(Rest()), maxBytes, tooLong)
              case Got(value, n) => r == Ok(value) && pos == old(pos) + n
              case Fail(reason) => r == Err(reason)
    {
      ghost var start := Rest();
      var length := ReadVarUint();
      if length.Err? {
        return Err(length.error);
      }
      if length.value > maxBytes {
        return Err(tooLong);
      }
      if pos + length.value > |arr| {
        return Err(Truncated);
      }
      var bytes := ReadUint8Array(length.value);
      assert bytes == start[pos - old(pos) - length.value..pos - old(pos)];
      var text := DecodeText(bytes);
      match text {
        case None => return Err(InvalidString);
        case Some(s) => return Ok(s);
      }
    }

    method ReadTail() returns (bytes: Bytes)
      requires Valid()
      modifies this`pos
      ensures Valid() && pos == |arr| && bytes == old(Rest())
    {
      bytes := ReadUint8Array(|arr| - pos);
    }

    method AssertDone() returns (thrown: Option<Reason>)
      requires Valid()
      ensures thrown == if Rest() == [] then None else Some(TrailingData)
    {
      thrown := if pos < |arr| then Some(TrailingData) else None;
    }
  }

  // The fields after the room name, read to the end of the frame.
  method DecodeFields(reader: Reader, wireId: nat, room: Text) returns (r: Result<Message, Reason>)
    requires reader.Valid() && wireId <= 4
    modifies reader`pos
    ensures r == DecodeTail(wireId, room, old(reader.Rest()))
  {
    match wireId {
      case 0 =>
        var grant := reader.ReadText(MAX_GRANT_BYTES, GrantTooLong);
        if grant.Err? {
          return Err(grant.error);
        }
        if grant.value == [] {
          return Err(EmptyGrant);
        }
        var thrown := reader.AssertDone();
        return if thrown.Some? then Err(thrown.value) else Ok(Subscribe(room, grant.value));
      case 1 =>
        var thrown := reader.AssertDone();
        return if thrown.Some? then Err(thrown.value) else Ok(Subscribed(room));
      case 2 =>
        var payload := reader.ReadTail();
        return if payload == [] then Err(EmptyPayload) else Ok(Data(room, payload));
      case 3 =>
        var thrown := reader.AssertDone();
        return if thrown.Some? then Err(thrown.value) else Ok(Unsubscribe(room));
      case _ =>
        var code := reader.ReadVarUint();
        if code.Err? {
          return Err(code.error);
        }
        if !ValidCloseCode(code.value) {
          return Err(InvalidCloseCode);
        }
        var thrown := reader.AssertDone();
        return if thrown.Some? then Err(thrown.value) else Ok(RoomClosed(room, code.value));
    }
  }

  method DecodeMessage(data: Bytes) returns (r: Result<Message, Reason>)
    ensures r == Decode(data)
  {
    var reader := new Reader(data);
    assert reader.Rest() == data;
    var version := reader.ReadVarUint();
    if version.Err? {
      return Err(version.error);
    }
    if version.value != PROTOCOL_VERSION {
      return Err(UnsupportedVersion);
    }
    ghost var typed := reader.Rest();
    assert typed == data[ReadVar(data).size..];
    var wireId := reader.ReadVarUint();
    if wireId.Err? {
      return Err(wireId.error);
    }
    if wireId.value > 4 {
      return Err(UnknownMessageType);
    }
    ghost var body := reader.Rest();
    assert body == typed[ReadVar(typed).size..];
    var room := reader.ReadText(MAX_ROOM_NAME_BYTES, RoomTooLong);
    if room.Err? {
      return Err(room.error);
    }
    if room.value == [] {
      return Err(EmptyRoom);
    }
    assert reader.Rest() == body[ReadString(body, MAX_ROOM_NAME_BYTES, RoomTooLong).size..];
    r := DecodeFields(reader, wireId.value, room.value);
  }
}

/**
  The multiplex wire format: what one frame looks like, as functions. The
  encoder and reader objects of ProtocolCode.dfy compute exactly these.
  A varuint is LEB128 (section 7.6 of DWARF 5) held to five bytes and 32 bits.
*/
module Protocol {
  import opened Basics
  import opened Unicode

  const PROTOCOL_VERSION: nat := 1
  const MAX_ROOM_NAME_BYTES: nat := 512
  const MAX_GRANT_BYTES: nat := 8192
  const MIN_PRIVATE_ROOM_CLOSE_CODE := 4000
  const MAX_PRIVATE_ROOM_CLOSE_CODE := 4999
  const MAX_VARUINT_BYTES: nat := 5
  const TWO_TO_THE_32: nat := 0x1_0000_0000

  datatype Message =
    | Subscribe(room: Text, grant: Text)
    | Subscribed(room: Text)
    | Data(room: Text, payload: Bytes)
    | Unsubscribe(room: Text)
    | RoomClosed(room: Text, code: int)

  datatype Reason =
    | Truncated
    | TrailingData
    | UnsupportedVersion
    | UnknownMessageType
    | VaruintTooLarge
    | InvalidString
    | EmptyRoom
    | RoomTooLong
    | EmptyGrant
    | GrantTooLong
    | EmptyPayload
    | InvalidCloseCode

  function WireId(m: Message): nat {
    match m
    case Subscribe(_, _) => 0
    case Subscribed(_) => 1
    case Data(_, _) => 2
    case Unsubscribe(_) => 3
    case RoomClosed(_, _) => 4
  }

  predicate ValidCloseCode(code: int) {
    MIN_PRIVATE_ROOM_CLOSE_CODE <= code <= MAX_PRIVATE_ROOM_CLOSE_CODE
  }

  // ---------- encoding ----------

  function VarUint(n: nat): (b: Bytes)
    ensures b != []
  {
    if n < 0x80 then [n] else [0x80 + n % 0x80] + VarUint(n / 0x80)
  }

  function LengthPrefixed(b: Bytes): Bytes {
    VarUint(|b|) + b
  }

  function Header(wireId: nat): Bytes {
    VarUint(PROTOCOL_VERSION) + VarUint(wireId)
  }

  function EncodeString(s: Text, maxBytes: nat, tooLong: Reason): Result<Bytes, Reason> {
    var b := EncodeText(s);
    if |b| > maxBytes then Err(tooLong) else Ok(LengthPrefixed(b))
  }

  // The fields after the room name.
  function EncodeTail(m: Message): Result<Bytes, Reason> {
    match m
    case Subscribe(_, grant) =>
      if grant == [] then Err(EmptyGrant) else EncodeString(grant, MAX_GRANT_BYTES, GrantTooLong)
    case Subscribed(_) => Ok([])
    case Unsubscribe(_) => Ok([])
    case Data(_, payload) =>
      if payload == [] then Err(EmptyPayload) else Ok(payload)
    case RoomClosed(_, code) =>
      if ValidCloseCode(code) then Ok(VarUint(code)) else Err(InvalidCloseCode)
  }

  function Encode(m: Message): Result<Bytes, Reason> {
    if m.room == [] then Err(EmptyRoom)
    else match EncodeString(m.room, MAX_ROOM_NAME_BYTES, RoomTooLong)
      case Err(reason) => Err(reason)
      case Ok(room) =>
        match EncodeTail(m)
        case Err(reason) => Err(reason)
        case Ok(tail) => Ok(Header(WireId(m)) + room + tail)
  }

  /** The frame of a message that can be encoded. */
  function FrameOf(m: Message): Bytes {
    if Encode(m).Ok? then Encode(m).value else []
  }

  // ---------- decoding ----------

  /** A field read off the front of some bytes: its value and the bytes it takes. */
  datatype Read<+T> = Got(value: T, size: nat) | Fail(reason: Reason)

  // Reads a varuint whose first byte is byte number i of the field.
  function ReadVarFrom(b: Bytes, i: nat): (r: Read<nat>)
    requires i < MAX_VARUINT_BYTES
    ensures r.Got? ==> 1 <= r.size <= MAX_VARUINT_BYTES - i && r.size <= |b|
    decreases MAX_VARUINT_BYTES - i
  {
    if b == [] then Fail(Truncated)
    else if i == 4 && b[0] > 0x0F then Fail(VaruintTooLarge)
    else if b[0] < 0x80 then Got(b[0], 1)
    else match ReadVarFrom(b[1..], i + 1)
      case Fail(reason) => Fail(reason)
      case Got(v, n) => Got(b[0] % 0x80 + 0x80 * v, n + 1)
  }

  function ReadVar(b: Bytes): (r: Read<nat>)
    ensures r.Got? ==> 1 <= r.size <= |b|
  {
    ReadVarFrom(b, 0)
  }

  function ReadString(b: Bytes, maxBytes: nat, tooLong: Reason): (r: Read<Text>)
    ensures r.Got? ==> 1 <= r.size <= |b|
  {
    match ReadVar(b)
    case Fail(reason) => Fail(reason)
    case Got(len, n) =>
      if len > maxBytes then Fail(tooLong)
      else if n + len > |b| then Fail(Truncated)
      else match DecodeText(b[n..n + len])
        case None => Fail(InvalidString)
        case Some(s) => Got(s, n + len)
  }

  function Done(b: Bytes, size: nat, m: Message): Result<Message, Reason>
    requires size <= |b|
  {
    if size < |b| then Err(TrailingData) else Ok(m)
  }

  function DecodeTail(wireId: nat, room: Text, b: Bytes): Result<Message, Reason>
    requires wireId <= 4
  {
    match wireId
    case 0 =>
      (match ReadString(b, MAX_GRANT_BYTES, GrantTooLong)
       case Fail(reason) => Err(reason)
       case Got(grant, n) => if grant == [] then Err(EmptyGrant) else Done(b, n, Subscribe(room, grant)))
    case 1 => Done(b, 0, Subscribed(room))
    case 2 => if b == [] then Err(EmptyPayload) else Ok(Data(room, b))
    case 3 => Done(b, 0, Unsubscribe(room))
    case _ =>
      (match ReadVar(b)
       case Fail(reason) => Err(reason)
       case Got(code, n) =>
         if ValidCloseCode(code) then Done(b, n, RoomClosed(room, code)) else Err(InvalidCloseCode))
  }

  // From the room name on.
  function DecodeBody(wireId: nat, b: Bytes): Result<Message, Reason>
    requires wireId <= 4
  {
    match ReadString(b, MAX_ROOM_NAME_BYTES, RoomTooLong)
    case Fail(reason) => Err(reason)
    case Got(room, n) => if room == [] then Err(EmptyRoom) else DecodeTail(wireId, room, b[n..])
  }

  // From the message type on.
  function DecodeTyped(b: Bytes): Result<Message, Reason> {
    match ReadVar(b)
    case Fail(reason) => Err(reason)
    case Got(wireId, n) => if wireId > 4 then Err(UnknownMessageType) else DecodeBody(wireId, b[n..])
  }

  function Decode(b: Bytes): Result<Message, Reason> {
    match ReadVar(b)
    case Fail(reason) => Err(reason)
    case Got(version, n) => if version != PROTOCOL_VERSION then Err(UnsupportedVersion) else DecodeTyped(b[n..])
  }

  // ---------- the stated field bounds ----------

  /** The bounds the format states, independently of how a frame is built. */
  predicate WithinBounds(m: Message) {
    && 1 <= |EncodeText(m.room)| <= MAX_ROOM_NAME_BYTES
    && match m
       case Subscribe(_, grant) => 1 <= |EncodeText(grant)| <= MAX_GRANT_BYTES
       case Data(_, payload) => payload != []
       case RoomClosed(_, code) => 4000 <= code <= 4999
       case _ => true
  }

  predicate WellFormedMessage(m: Message) {
    WellFormed(m.room) && (m.Subscribe? ==> WellFormed(m.grant))
  }

  function NormalizedMessage(m: Message): Message {
    match m
    case Subscribe(room, grant) => Subscribe(Normalized(room), Normalized(grant))
    case Subscribed(room) => Subscribed(Normalized(room))
    case Data(room, payload) => Data(Normalized(room), payload)
    case Unsubscribe(room) => Unsubscribe(Normalized(room))
    case RoomClosed(room, code) => RoomClosed(Normalized(room), code)
  }
}

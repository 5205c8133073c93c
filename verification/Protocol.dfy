/** Packet types, error codes, and the field lists of the messages both ends exchange. */
module Protocol {
  import opened Wire
  import opened Codec

  datatype PacketType =
    | Register
    | Login
    | Upload
    | Download
    | Message
    | Result
    | FriendRequest
    | FriendAccept
    | FriendReject
    | FriendList
    | DirectMessage
    | ChatList
    | MessageHistory
    | TokenVerify
    | Logout
    | FriendNewRequest
    | FriendRequestAccepted
    | FriendRequestRejected
    | Unknown(code: U32)

  /** The number a packet type has on the wire. */
  function TypeCode(t: PacketType): U32
  {
    match t
    case Register => 1
    case Login => 2
    case Upload => 3
    case Download => 4
    case Message => 5
    case Result => 6
    case FriendRequest => 7
    case FriendAccept => 8
    case FriendReject => 9
    case FriendList => 10
    case DirectMessage => 11
    case ChatList => 12
    case MessageHistory => 13
    case TokenVerify => 14
    case Logout => 15
    case FriendNewRequest => 16
    case FriendRequestAccepted => 17
    case FriendRequestRejected => 18
    case Unknown(c) => c
  }

  /** static_cast<PacketType>: any 32-bit number is accepted. */
  function TypeOfCode(code: U32): (t: PacketType)
    ensures TypeCode(t) == code
    ensures t.Unknown? <==> !(1 <= code <= 18)
  {
    if code == 1 then Register
    else if code == 2 then Login
    else if code == 3 then Upload
    else if code == 4 then Download
    else if code == 5 then Message
    else if code == 6 then Result
    else if code == 7 then FriendRequest
    else if code == 8 then FriendAccept
    else if code == 9 then FriendReject
    else if code == 10 then FriendList
    else if code == 11 then DirectMessage
    else if code == 12 then ChatList
    else if code == 13 then MessageHistory
    else if code == 14 then TokenVerify
    else if code == 15 then Logout
    else if code == 16 then FriendNewRequest
    else if code == 17 then FriendRequestAccepted
    else if code == 18 then FriendRequestRejected
    else Unknown(code)
  }

  type ErrorCode = U32

  const OK: ErrorCode := 1
  const LOGIN_EXISTS: ErrorCode := 0x1000_0001
  const INCORRECT_CREDENTIALS: ErrorCode := 0x1000_0002
  const NON_AUTHORIZED: ErrorCode := 0x1000_0003
  const TOKEN_EXPIRED: ErrorCode := 0x1000_0004
  const ALREADY_FRIENDS: ErrorCode := 0x3000_0001
  const ALREADY_SENT: ErrorCode := 0x3000_0002
  const REQUEST_TO_YOURSELF: ErrorCode := 0x3000_0003
  const ACCEPT_NONEXISTENT: ErrorCode := 0x3000_0004
  const ACCEPT_YOURSELF: ErrorCode := 0x3000_0005
  const REJECT_NONEXISTENT: ErrorCode := 0x3000_0006
  const REJECT_YOURSELF: ErrorCode := 0x3000_0007
  const NOT_FRIENDS: ErrorCode := 0x3000_0008
  const USER_NOT_FOUND: ErrorCode := 0x4000_0001

  // ---- the numbers on the wire ---------------------------------------------------------------

  /** The enumerators in the order of their declaration. */
  const PACKET_TYPES: seq<PacketType> :=
    [Register, Login, Upload, Download, Message, Result, FriendRequest, FriendAccept, FriendReject, FriendList,
     DirectMessage, ChatList, MessageHistory, TokenVerify, Logout,
     FriendNewRequest, FriendRequestAccepted, FriendRequestRejected]

  /** They count from 1 on, and casting their numbers back gives them. */
  lemma PacketTypesCount(i: nat)
    requires i < |PACKET_TYPES|
    ensures |PACKET_TYPES| == 18 && TypeCode(PACKET_TYPES[i]) == i + 1 && TypeOfCode(i + 1) == PACKET_TYPES[i]
  {
  }

  const AUTH_ERRORS: seq<ErrorCode> := [LOGIN_EXISTS, INCORRECT_CREDENTIALS, NON_AUTHORIZED, TOKEN_EXPIRED]
  const FRIEND_ERRORS: seq<ErrorCode> :=
    [ALREADY_FRIENDS, ALREADY_SENT, REQUEST_TO_YOURSELF, ACCEPT_NONEXISTENT, ACCEPT_YOURSELF, REJECT_NONEXISTENT,
     REJECT_YOURSELF, NOT_FRIENDS]

  /** An error code is its category in the upper four bits and a number counted from 1 within it. */
  lemma ErrorsCount(i: nat)
    ensures OK == 1 && USER_NOT_FOUND == 0x4000_0000 + 1
    ensures i < 4 ==> |AUTH_ERRORS| == 4 && AUTH_ERRORS[i] == 0x1000_0000 + i + 1
    ensures i < 8 ==> |FRIEND_ERRORS| == 8 && FRIEND_ERRORS[i] == 0x3000_0000 + i + 1
  {
  }

  // ---- message layouts -----------------------------------------------------------------------

  /** The request types the server answers with one RESULT. */
  predicate Answered(t: PacketType)
  {
    match t
    case Register => true
    case Login => true
    case Upload => true
    case Download => true
    case Message => true
    case FriendRequest => true
    case FriendAccept => true
    case FriendReject => true
    case FriendList => true
    case DirectMessage => true
    case ChatList => true
    case MessageHistory => true
    case TokenVerify => true
    case _ => false
  }

  /** Fields of the request body: AuthRequest, FileUploadRequest, FriendRequest and so on. */
  function RequestSchema(t: PacketType): seq<Schema>
  {
    match t
    case Register => [Text, Text]
    case Login => [Text, Text]
    case Upload => [Text, Text, Blob]
    case Download => [Text, Text]
    case Message => [Text, Text]
    case FriendRequest => [Text, Text]
    case FriendAccept => [Text, Text]
    case FriendReject => [Text, Text]
    case FriendList => [Text]
    case DirectMessage => [Text, Text, Text]
    case ChatList => [Text]
    case MessageHistory => [Text, Text]
    case TokenVerify => [Text]
    case Logout => [Text]
    case _ => []
  }

  /** HistoryResponse::Entry, ChatListEntry and DirectMessageIncoming share this layout. */
  const ENTRY: seq<Schema> := [Text, Text, Int64]

  /** Fields of the RESULT body the handler of a request type serializes. */
  function ResponseSchema(t: PacketType): seq<Schema>
  {
    match t
    case Register => [Text, Code]
    case Login => [Text, Code]
    case Upload => [Code]
    case Download => [Blob, Code]
    case Message => [Code]
    case FriendRequest => [Code]
    case FriendAccept => [Code]
    case FriendReject => [Code]
    case FriendList => [Vector(Text), Vector(Text), Code]
    case DirectMessage => [Code]
    case ChatList => [Vector(Record(ENTRY)), Code]
    case MessageHistory => [Vector(Record(ENTRY)), Code]
    case TokenVerify => [Code]
    case _ => []
  }

  /** ChatIncoming. */
  const CHAT_INCOMING: seq<Schema> := [Text, Text]

  lemma ResponseNotEmpty(t: PacketType, vs: seq<Value>)
    requires Answered(t) && HaveSchemas(vs, ResponseSchema(t))
    ensures |EncodeAll(vs)| >= 4
  {
    assert ResponseSchema(t) != [] && !ResponseSchema(t)[0].Record?;
    assert |Encode(vs[0])| >= 4;
  }

  /** The byte string a decoded request field carries. */
  function FieldBytes(v: Value): Bytes
  {
    match v
    case TextV(t) => t
    case BlobV(d) => d
    case _ => []
  }

  datatype Option<+T> = None | Some(value: T)

  /** Request::deserialize(body): the byte string of each field, or None when the decoder throws. */
  function ParseRequest(t: PacketType, body: Bytes): (r: Option<seq<Bytes>>)
    ensures r.Some? ==> |r.value| == |RequestSchema(t)|
  {
    match DecodeMessage(RequestSchema(t), body)
    case Ok(vs, _) =>
      DecodeAllBounds(RequestSchema(t), body, 0);
      SchemaLength(vs, RequestSchema(t));
      Some(seq(|vs|, i requires 0 <= i < |vs| => FieldBytes(vs[i])))
    case _ => None
  }

  lemma {:induction false} SchemaLength(vs: seq<Value>, ss: seq<Schema>)
    requires HaveSchemas(vs, ss)
    ensures |vs| == |ss|
  {
    if ss != [] {
      SchemaLength(vs[1..], ss[1..]);
    }
  }

  /** The body a client serializes for a request with the given field contents. */
  function RequestBody(t: PacketType, fields: seq<Bytes>): Bytes
    requires |fields| == |RequestSchema(t)|
  {
    EncodeAll(RequestValues(RequestSchema(t), fields))
  }

  function RequestValues(ss: seq<Schema>, fields: seq<Bytes>): (vs: seq<Value>)
    requires |fields| == |ss|
    ensures |vs| == |ss|
    ensures forall i :: 0 <= i < |vs| ==> vs[i] == if ss[i].Blob? then BlobV(fields[i]) else TextV(fields[i])
  {
    seq(|ss|, i requires 0 <= i < |ss| => if ss[i].Blob? then BlobV(fields[i]) else TextV(fields[i]))
  }

  /** The server reads back exactly the fields a client serialized. */
  lemma RequestRoundTrip(t: PacketType, fields: seq<Bytes>)
    requires |fields| == |RequestSchema(t)|
    requires forall i :: 0 <= i < |fields| ==> |fields[i]| < U32_LIMIT
    ensures ParseRequest(t, RequestBody(t, fields)) == Some(fields)
  {
    var ss := RequestSchema(t);
    var vs := RequestValues(ss, fields);
    RequestValuesFit(ss, fields, 0);
    MessageRoundTrip(vs[0..], ss[0..]);
    assert vs[0..] == vs && ss[0..] == ss;
    var r := ParseRequest(t, RequestBody(t, fields)).value;
    assert forall i :: 0 <= i < |fields| ==> r[i] == fields[i];
    assert r == fields;
  }

  lemma {:induction false} RequestValuesFit(ss: seq<Schema>, fields: seq<Bytes>, k: nat)
    requires |fields| == |ss| && k <= |ss|
    requires forall i :: 0 <= i < |ss| ==> ss[i].Text? || ss[i].Blob?
    requires forall i :: 0 <= i < |fields| ==> |fields[i]| < U32_LIMIT
    ensures HaveSchemas(RequestValues(ss, fields)[k..], ss[k..])
    ensures AllFit(RequestValues(ss, fields)[k..])
    decreases |ss| - k
  {
    if k < |ss| {
      RequestValuesFit(ss, fields, k + 1);
      var vs := RequestValues(ss, fields);
      assert vs[k..][1..] == vs[k + 1..] && ss[k..][1..] == ss[k + 1..];
    }
  }

  /** Each field behind its length. */
  function Chunks(fields: seq<Bytes>): (cs: seq<Bytes>)
    ensures |cs| == |fields|
    ensures forall i :: 0 <= i < |cs| ==> cs[i] == PutU32(|fields[i]|) + fields[i]
  {
    seq(|fields|, i requires 0 <= i < |fields| => PutU32(|fields[i]|) + fields[i])
  }

  /** How many fields each request has, and that nothing but they and their lengths stand in its body. */
  lemma RequestOnTheWire(t: PacketType, fields: seq<Bytes>)
    requires Answered(t) || t.Logout?
    requires |fields| == if t in {FriendList, ChatList, TokenVerify, Logout} then 1
                         else if t in {Upload, DirectMessage} then 3 else 2
    requires forall i :: 0 <= i < |fields| ==> |fields[i]| < U32_LIMIT
    ensures ParseRequest(t, Flat(Chunks(fields))) == Some(fields)
  {
    RequestRoundTrip(t, fields);
    EncodeChunks(RequestValues(RequestSchema(t), fields), fields);
  }

  lemma {:induction false} EncodeChunks(vs: seq<Value>, fields: seq<Bytes>)
    requires |vs| == |fields|
    requires forall i :: 0 <= i < |vs| ==> vs[i] == TextV(fields[i]) || vs[i] == BlobV(fields[i])
    ensures EncodeAll(vs) == Flat(Chunks(fields))
  {
    hide PutU32;
    if vs != [] {
      EncodeChunks(vs[1..], fields[1..]);
      assert Chunks(fields)[1..] == Chunks(fields[1..]);
    }
  }
}

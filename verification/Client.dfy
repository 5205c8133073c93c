/** The client's handler: a queue of request types tells it how to decode each RESULT. */
module Client {
  import opened Wire
  import opened Codec
  import opened Protocol
  import N = Network
  import Sessions
  import S = Serializer

  /** What handle_packet ends in: a callback with decoded fields, nothing, or an exception. */
  datatype Callback =
    | OnResponse(origin: PacketType, values: seq<Value>)
    | Undecoded(origin: PacketType)
    | OnIncoming(kind: PacketType, values: seq<Value>)
    | OnNotice
    | EmptyQueue
    | Ignored
    | Broken

  /** The inner switch: which response struct a popped request type selects, if any. */
  function DecoderFor(t: PacketType): Option<seq<Schema>>
  {
    match t
    case TokenVerify => Some([Code])
    case Register => Some([Text, Code])
    case Login => Some([Text, Code])
    case FriendRequest => Some([Code])
    case FriendAccept => Some([Code])
    case FriendReject => Some([Code])
    case FriendList => Some([Vector(Text), Vector(Text), Code])
    case MessageHistory => Some([Vector(Record([Text, Text, Int64])), Code])
    case ChatList => Some([Vector(Record([Text, Text, Int64])), Code])
    case _ => None
  }

  datatype Reaction = Reaction(pending: seq<PacketType>, callback: Callback)

  /** handle_packet on one packet, given the queue of pending request types. */
  function React(pending: seq<PacketType>, t: PacketType, body: Bytes): Reaction
  {
    match t
    case Message =>
      var r := DecodeMessage(CHAT_INCOMING, body);
      Reaction(pending, if r.Ok? then OnIncoming(t, r.value) else Broken)
    case DirectMessage =>
      var r := DecodeMessage(ENTRY, body);
      Reaction(pending, if r.Ok? then OnIncoming(t, r.value) else Broken)
    case FriendNewRequest => Reaction(pending, OnNotice)
    case FriendRequestAccepted => Reaction(pending, OnNotice)
    case FriendRequestRejected => Reaction(pending, OnNotice)
    case Result =>
      if pending == [] then Reaction(pending, EmptyQueue)
      else
        var original := pending[0];
        if DecoderFor(original).None? then Reaction(pending[1..], Undecoded(original))
        else
          var r := DecodeMessage(DecoderFor(original).value, body);
          Reaction(pending[1..], if r.Ok? then OnResponse(original, r.value) else Broken)
    case _ => Reaction(pending, Ignored)
  }

  /** Decoding with the struct the request type selects gives back the response its handler serialized: for the nine
      types the client decodes, each named here, and a RESULT for any other type is popped and left undecoded. */
  lemma ResponseComesBack(origin: PacketType, values: seq<Value>, later: seq<PacketType>)
    requires HaveSchemas(values, ResponseSchema(origin)) && AllFit(values)
    ensures React([origin] + later, Result, EncodeAll(values))
         == Reaction(later,
                     match origin
                     case Register => OnResponse(origin, values)
                     case Login => OnResponse(origin, values)
                     case TokenVerify => OnResponse(origin, values)
                     case FriendRequest => OnResponse(origin, values)
                     case FriendAccept => OnResponse(origin, values)
                     case FriendReject => OnResponse(origin, values)
                     case FriendList => OnResponse(origin, values)
                     case MessageHistory => OnResponse(origin, values)
                     case ChatList => OnResponse(origin, values)
                     case _ => Undecoded(origin))
  {
    MessageRoundTrip(values, ResponseSchema(origin));
    assert ([origin] + later)[1..] == later;
    assert DecoderFor(origin).Some? ==> DecoderFor(origin).value == ResponseSchema(origin);
  }

  /** When handling a packet throws: exactly when the body of a MESSAGE, a DIRECT_MESSAGE or a RESULT of a decoded type
      does not hold the fields it should. The queue has been popped by then. */
  lemma BreaksExactly(pending: seq<PacketType>, t: PacketType, body: Bytes)
    ensures React(pending, t, body).callback.Broken? <==>
            || (t.Message? && !DecodeMessage([Text, Text], body).Ok?)
            || (t.DirectMessage? && !DecodeMessage([Text, Text, Int64], body).Ok?)
            || (t.Result? && pending != [] && DecoderFor(pending[0]).Some?
                && !DecodeMessage(ResponseSchema(pending[0]), body).Ok?)
    ensures React(pending, t, body).pending == if t.Result? && pending != [] then pending[1..] else pending
    ensures t.Result? && pending == [] ==> React(pending, t, body).callback.EmptyQueue?
    ensures React(pending, t, body).callback.OnNotice? <==>
            t.FriendNewRequest? || t.FriendRequestAccepted? || t.FriendRequestRejected?
    ensures React(pending, t, body).callback.Ignored? <==>
            !t.Message? && !t.DirectMessage? && !t.Result? && !React(pending, t, body).callback.OnNotice?
  {
    hide DecodeMessage;
    if t.Result? && pending != [] {
      assert DecoderFor(pending[0]).Some? ==> DecoderFor(pending[0]).value == ResponseSchema(pending[0]);
    }
  }

  class ClientAsyncHandler {
    const session: Sessions.NetworkSession
    var pendingRequests: seq<PacketType>

    constructor (session: Sessions.NetworkSession)
      ensures this.session == session && pendingRequests == []
    {
      this.session := session;
      pendingRequests := [];
    }

    /** send_request: push the type, then post the packet. */
    method SendRequest(t: PacketType, body: Bytes)
      requires session.Valid()
      modifies this, session
      ensures session.Valid() && session.Unread() == old(session.Unread())
      ensures pendingRequests == old(pendingRequests) + [t]
      ensures session.Outgoing() == N.Apply(old(session.Outgoing()), N.Post(N.Frame(N.Packet(TypeCode(t), body))))
    {
      pendingRequests := pendingRequests + [t];
      session.SendPacket(TypeCode(t), body);
    }

    method Decode(ss: seq<Schema>, body: Bytes) returns (ok: bool, values: seq<Value>)
      ensures ok <==> DecodeMessage(ss, body).Ok?
      ensures ok ==> DecodeMessage(ss, body).value == values
    {
      var cursor := new S.Cursor(body);
      var r := cursor.DeserializeTuple(ss);
      if r.Got? {
        return true, r.value;
      }
      return false, [];
    }

    method HandlePacket(t: PacketType, body: Bytes) returns (callback: Callback)
      modifies this
      ensures Reaction(pendingRequests, callback) == React(old(pendingRequests), t, body)
    {
      hide DecodeMessage;
      match t {
        case Message =>
          var ok, msg := Decode(CHAT_INCOMING, body);
          callback := if ok then OnIncoming(t, msg) else Broken;
        case DirectMessage =>
          var ok, msg := Decode(ENTRY, body);
          callback := if ok then OnIncoming(t, msg) else Broken;
        case FriendNewRequest => callback := OnNotice;
        case FriendRequestAccepted => callback := OnNotice;
        case FriendRequestRejected => callback := OnNotice;
        case Result =>
          if pendingRequests == [] {
            return EmptyQueue;
          }
          var original := pendingRequests[0];
          pendingRequests := pendingRequests[1..];
          var decoder := DecoderFor(original);
          if decoder.None? {
            return Undecoded(original);
          }
          var ok, res := Decode(decoder.value, body);
          callback := if ok then OnResponse(original, res) else Broken;
        case _ => callback := Ignored;
      }
    }
  }
}

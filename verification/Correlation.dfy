/**
 Clients and server together. Packets carry no request id, so a client matches each RESULT with the oldest
 pending request type. Each direction of a connection is a channel of module Channels: what is handled on one
 side is what the reader makes of the bytes that have arrived from the other.
 */
module Correlation {
  import opened Wire
  import opened Codec
  import opened Protocol
  import opened Server
  import opened ServerSafety
  import opened ServerOutput
  import opened Channels
  import ServerRegistry
  import ServerCopies
  import C = Client
  import N = Network

  /** One client: its pending queue, the type pushed but not posted yet, and the two directions of its connection.
      broken means an exception ended its I/O thread. */
  datatype ClientState = ClientState(
    pending: seq<PacketType>,
    pushed: Option<PacketType>,
    up: Channel,
    down: Channel,
    broken: bool)

  const NEW_CLIENT := ClientState([], None, NEW_CHANNEL, NEW_CHANNEL, false)

  datatype System = System(world: World, clients: map<Sid, ClientState>)

  datatype Event =
    | Join                                              // a client of this kind connects
    | Push(sid: Sid, kind: PacketType)                  // send_request queues the type ...
    | PostPushed(sid: Sid, body: Bytes)                 // ... and posts the packet
    | PostLogout(sid: Sid, body: Bytes)                 // send_packet, without the queue
    | Moves(sid: Sid, upward: bool, link: N.LinkEvent)  // a writer queues, writes, completes or fails
    | Arrives(sid: Sid, upward: bool, count: nat)       // bytes reach a reader
    | Serve(sid: Sid, env: Env, later: int)             // the server handles the client's next packet
    | Take(sid: Sid)                                    // the client handles the server's next packet
    | Elsewhere(event: Server.Event)                    // any other server event

  /** Server events that are not the packets of a tracked client. */
  predicate Foreign(clients: map<Sid, ClientState>, e: Server.Event)
  {
    e.Receive? || e.Crash? ==> e.sid !in clients
  }

  /** Whose connection outlives the event. What has arrived at a client by then could have been taken before. */
  function StillThere(clients: map<Sid, ClientState>, e: Server.Event): map<Sid, ClientState>
  {
    match e
    case Disconnect(sid) => clients - {sid}
    case Restart(_) => map[]
    case Crash(_, _, _, _, _) => map[]
    case _ => clients
  }

  function UpdateClient(sys: System, sid: Sid, c: ClientState): System
  {
    sys.(clients := sys.clients[sid := c])
  }

  function PacketOf(o: Out): N.Packet
  {
    N.Packet(TypeCode(WireType(o)), EncodeAll(WireValues(o)))
  }

  function PacketsOf(outs: seq<Out>): (ps: seq<N.Packet>)
    ensures |ps| == |outs|
    ensures forall i :: 0 <= i < |ps| ==> ps[i] == PacketOf(outs[i])
  {
    seq(|outs|, i requires 0 <= i < |outs| => PacketOf(outs[i]))
  }

  /** The packets a server step posts to a session go into its channel. */
  function PostedDown(c: ClientState, before: seq<Out>, after: seq<Out>): ClientState
  {
    if |before| <= |after| then c.(down := Send(c.down, PacketsOf(after[|before|..]))) else c
  }

  function AllPostedDown(clients: map<Sid, ClientState>, w: World, w': World): map<Sid, ClientState>
  {
    map s | s in clients :: PostedDown(clients[s], SentTo(w.posted, s), SentTo(w'.posted, s))
  }

  /** What the client makes of a packet. */
  function Handles(pending: seq<PacketType>, p: N.Packet): C.Reaction
  {
    C.React(pending, TypeOfCode(p.code), p.body)
  }

  /** The server handles a client's packet, or throws, and then everything starts again without connections. */
  function Served(sys: System, sid: Sid, p: N.Packet, env: Env, later: int): System
    requires sid in sys.clients && sid in sys.world.live
  {
    var t := TypeOfCode(p.code);
    var w := HandlePacket(sys.world, sid, t, p.body, env);
    if w.None? then System(Restarted(BrokenState(sys.world, sid, t, p.body, env), later), map[])
    else
      var c := sys.clients[sid];
      System(w.value, AllPostedDown(sys.clients[sid := c.(up := HandOn(c.up))], sys.world, w.value))
  }

  function Step(sys: System, e: Event): Option<System>
  {
    match e
    case Join =>
      var w := Server.Step(sys.world, Connect);
      Some(System(w.value, sys.clients[sys.world.nextSid := NEW_CLIENT]))
    case Push(sid, kind) =>
      if sid in sys.clients && sys.clients[sid].pushed.None? && Answered(kind) then
        var c := sys.clients[sid];
        Some(UpdateClient(sys, sid, c.(pending := c.pending + [kind], pushed := Some(kind))))
      else None
    case PostPushed(sid, body) =>
      if sid in sys.clients && sys.clients[sid].pushed.Some? then
        Some(UpdateClient(sys, sid, PostsRequest(sys.clients[sid], sys.clients[sid].pushed.value, body)))
      else None
    case PostLogout(sid, body) =>
      if sid in sys.clients && sys.clients[sid].pushed.None? then
        Some(UpdateClient(sys, sid, PostsRequest(sys.clients[sid], Logout, body)))
      else None
    case Moves(sid, upward, event) =>
      if sid in sys.clients then
        var c := sys.clients[sid];
        var ch := Move(if upward then c.up else c.down, event);
        if ch.None? then None
        else Some(UpdateClient(sys, sid, if upward then c.(up := ch.value) else c.(down := ch.value)))
      else None
    case Arrives(sid, upward, count) =>
      if sid in sys.clients then
        var c := sys.clients[sid];
        var ch := Arrive(if upward then c.up else c.down, count);
        if ch.None? then None
        else Some(UpdateClient(sys, sid, if upward then c.(up := ch.value) else c.(down := ch.value)))
      else None
    case Serve(sid, env, later) =>
      if sid in sys.clients && sid in sys.world.live && Next(sys.clients[sid].up).Some? then
        Some(Served(sys, sid, Next(sys.clients[sid].up).value, env, later))
      else None
    case Take(sid) =>
      if sid in sys.clients && !sys.clients[sid].broken && Next(sys.clients[sid].down).Some? then
        Some(UpdateClient(sys, sid, Takes(sys.clients[sid])))
      else None
    case Elsewhere(event) =>
      var w := Server.Step(sys.world, event);
      if Foreign(sys.clients, event) && w.Some?
      then Some(System(w.value, AllPostedDown(StillThere(sys.clients, event), sys.world, w.value)))
      else None
  }

  function PostsRequest(c: ClientState, kind: PacketType, body: Bytes): ClientState
  {
    c.(pushed := None, up := Send(c.up, [N.Packet(TypeCode(kind), body)]))
  }

  function Takes(c: ClientState): ClientState
    requires Next(c.down).Some?
  {
    var r := Handles(c.pending, Next(c.down).value);
    c.(pending := r.pending, down := HandOn(c.down), broken := r.callback.Broken?)
  }

  function Run(sha256: Bytes -> ZeroFree, es: seq<Event>): Option<System>
  {
    if es == [] then Some(System(Start(sha256), map[]))
    else
      var sys := Run(sha256, es[..|es| - 1]);
      if sys.None? then None else Step(sys.value, es[|es| - 1])
  }

  // ---- alignment of the queue ----------------------------------------------------------------

  /** The request types of the RESULTs among some packets. */
  function Origins(outs: seq<Out>): seq<PacketType>
  {
    if outs == [] then []
    else (if outs[0].Reply? then [outs[0].origin] else []) + Origins(outs[1..])
  }

  /** The types of the requests that will be answered. */
  function Kinds(ps: seq<N.Packet>): seq<PacketType>
  {
    if ps == [] then []
    else KindOf(ps[0]) + Kinds(ps[1..])
  }

  function KindOf(p: N.Packet): seq<PacketType>
  {
    if Answered(TypeOfCode(p.code)) then [TypeOfCode(p.code)] else []
  }

  function PushedKind(pushed: Option<PacketType>): seq<PacketType>
  {
    if pushed.Some? then [pushed.value] else []
  }

  /** The pending queue is: the types of RESULTs on their way back, then of requests on their way out or not
      handled yet, then the one pushed but not posted. */
  predicate AlignedAt(sent: seq<Out>, got: nat, asked: seq<N.Packet>, served: nat,
                      pending: seq<PacketType>, pushed: Option<PacketType>)
  {
    && got <= |sent| && served <= |asked|
    && pending == Origins(sent[got..]) + Kinds(asked[served..]) + PushedKind(pushed)
  }

  predicate Aligned(sent: seq<Out>, c: ClientState)
  {
    AlignedAt(sent, c.down.taken, c.up.posts, c.up.taken, c.pending, c.pushed)
  }

  /** Every packet handled so far, in either direction, had a body shorter than 2^32 bytes. */
  predicate Sound(c: ClientState)
  {
    InStep(c.up) && InStep(c.down)
  }

  predicate ClientOk(w: World, sid: Sid, c: ClientState)
  {
    && sid in w.live
    && ChannelInv(c.up) && ChannelInv(c.down)
    && c.down.posts == PacketsOf(SentTo(w.posted, sid))
    && (c.pushed.Some? ==> Answered(c.pushed.value))
    && (Sound(c) ==> Aligned(SentTo(w.posted, sid), c))
  }

  /** Every RESULT posted has the fields of the response to the request it answers, and everything else is a push. */
  predicate Typed(ps: seq<Posted>)
  {
    forall p :: p in ps ==>
      if p.out.Reply? then Answered(p.out.origin) && HaveSchemas(p.out.values, ResponseSchema(p.out.origin))
      else IsPush(p.out)
  }

  ghost predicate SysInv(sys: System)
  {
    && Inv(sys.world)
    && Typed(sys.world.posted)
    && forall s :: s in sys.clients ==> ClientOk(sys.world, s, sys.clients[s])
  }

  lemma {:induction false} SentToAppend(ps: seq<Posted>, qs: seq<Posted>, sid: Sid)
    ensures SentTo(ps + qs, sid) == SentTo(ps, sid) + SentTo(qs, sid)
    decreases |qs|
  {
    if qs == [] {
      assert ps + qs == ps;
    } else {
      assert (ps + qs)[..|ps + qs| - 1] == ps + qs[..|qs| - 1];
      SentToAppend(ps, qs[..|qs| - 1], sid);
    }
  }

  lemma {:induction false} OriginsAppend(a: seq<Out>, b: seq<Out>)
    ensures Origins(a + b) == Origins(a) + Origins(b)
  {
    if a == [] {
      assert a + b == b;
    } else {
      assert (a + b)[1..] == a[1..] + b;
      OriginsAppend(a[1..], b);
      Regroup(Origins(a[..1]), Origins(a[1..]), Origins(b));
    }
  }

  lemma {:induction false} KindsAppend(a: seq<N.Packet>, b: seq<N.Packet>)
    ensures Kinds(a + b) == Kinds(a) + Kinds(b)
  {
    if a == [] {
      assert a + b == b;
    } else {
      assert (a + b)[1..] == a[1..] + b;
      KindsAppend(a[1..], b);
      Regroup(Kinds(a[..1]), Kinds(a[1..]), Kinds(b));
    }
  }

  /** Packets that are no RESULT for this session have no origins for it. */
  lemma {:induction false} NoOrigins(ps: seq<Posted>, sid: Sid)
    requires forall p :: p in ps && p.to == sid ==> !p.out.Reply?
    ensures Origins(SentTo(ps, sid)) == []
  {
    if ps != [] {
      var init, last := ps[..|ps| - 1], ps[|ps| - 1];
      assert ps == init + [last];
      assert forall p :: p in init ==> p in ps;
      NoOrigins(init, sid);
      if last.to == sid {
        assert last in ps;
        OriginsAppend(SentTo(init, sid), [last.out]);
        OriginOf(last.out);
        assert SentTo(ps, sid) == SentTo(init, sid) + [last.out];
      } else {
        assert SentTo(ps, sid) == SentTo(init, sid);
      }
    }
  }

  lemma OriginOf(o: Out)
    ensures Origins([o]) == if o.Reply? then [o.origin] else []
  {
    assert Origins([o]) == (if o.Reply? then [o.origin] else []) + Origins([]);
  }

  // Alignment under each thing that can happen to one client.

  lemma PushesKeepAlignment(sent: seq<Out>, added: seq<Out>, got: nat, asked: seq<N.Packet>, served: nat,
                            pending: seq<PacketType>, pushed: Option<PacketType>)
    requires AlignedAt(sent, got, asked, served, pending, pushed) && Origins(added) == []
    ensures AlignedAt(sent + added, got, asked, served, pending, pushed)
  {
    hide Origins, Kinds;
    assert (sent + added)[got..] == sent[got..] + added;
    OriginsAppend(sent[got..], added);
    assert Origins(sent[got..]) + [] == Origins(sent[got..]);
  }

  lemma ServingKeepsAlignment(sent: seq<Out>, added: seq<Out>, got: nat, asked: seq<N.Packet>, served: nat,
                              pending: seq<PacketType>, pushed: Option<PacketType>)
    requires AlignedAt(sent, got, asked, served, pending, pushed) && served < |asked|
    requires Origins(added) == KindOf(asked[served])
    ensures AlignedAt(sent + added, got, asked, served + 1, pending, pushed)
  {
    hide Origins, Kinds;
    var coming := sent[got..];
    assert (sent + added)[got..] == coming + added;
    OriginsAppend(coming, added);
    FirstKind(asked, served);
    Regroup(Origins(coming), KindOf(asked[served]), Kinds(asked[served + 1..]));
  }

  lemma FirstKind(asked: seq<N.Packet>, served: nat)
    requires served < |asked|
    ensures Kinds(asked[served..]) == KindOf(asked[served]) + Kinds(asked[served + 1..])
  {
    assert asked[served..][0] == asked[served] && asked[served..][1..] == asked[served + 1..];
  }

  lemma PushingKeepsAlignment(sent: seq<Out>, got: nat, asked: seq<N.Packet>, served: nat,
                              pending: seq<PacketType>, kind: PacketType)
    requires AlignedAt(sent, got, asked, served, pending, None)
    ensures AlignedAt(sent, got, asked, served, pending + [kind], Some(kind))
  {
    hide Origins, Kinds;
    var before := Origins(sent[got..]) + Kinds(asked[served..]);
    assert before + [] == before;
  }

  /** Posting a packet keeps the queue aligned exactly if the type just pushed is the packet's, or nothing was pushed
      and the packet will not be answered. */
  lemma PostingAligns(sent: seq<Out>, got: nat, asked: seq<N.Packet>, served: nat, pending: seq<PacketType>,
                      pushed: Option<PacketType>, p: N.Packet)
    requires AlignedAt(sent, got, asked, served, pending, pushed)
    ensures AlignedAt(sent, got, asked + [p], served, pending, None) <==> PushedKind(pushed) == KindOf(p)
  {
    hide Origins, Kinds;
    var coming, waiting := Origins(sent[got..]), Kinds(asked[served..]);
    assert (asked + [p])[served..] == asked[served..] + [p];
    KindsAppend(asked[served..], [p]);
    OneKind(p);
    Regroup(coming, waiting, KindOf(p));
    assert coming + waiting + KindOf(p) + [] == coming + waiting + KindOf(p);
    if coming + waiting + PushedKind(pushed) == coming + waiting + KindOf(p) {
      ServerCopies.SameTail(coming + waiting, PushedKind(pushed), KindOf(p));
    }
  }

  lemma OneKind(p: N.Packet)
    ensures Kinds([p]) == KindOf(p)
  {
    assert Kinds([p]) == KindOf(p) + Kinds([]);
  }

  /** What a client finds when it takes the next packet: its queue is not empty on a RESULT and its front is the
      type of the request that RESULT answers; other packets do not touch the queue. */
  lemma TakingKeepsAlignment(sent: seq<Out>, got: nat, asked: seq<N.Packet>, served: nat,
                             pending: seq<PacketType>, pushed: Option<PacketType>)
    requires AlignedAt(sent, got, asked, served, pending, pushed) && got < |sent|
    requires !sent[got].Reply? ==> IsPush(sent[got])
    ensures var o := sent[got];
            var r := Handles(pending, PacketOf(o));
            && (o.Reply? ==> pending != [] && pending[0] == o.origin)
            && r.pending == (if o.Reply? then pending[1..] else pending)
            && AlignedAt(sent, got + 1, asked, served, r.pending, pushed)
  {
    hide Handles, Kinds;
    var o, rest := sent[got], sent[got + 1..];
    assert sent[got..] == [o] + rest;
    OriginsAppend([o], rest);
    OriginOf(o);
    var later := Kinds(asked[served..]) + PushedKind(pushed);
    if o.Reply? {
      Regroup([o.origin], Origins(rest), later);
      assert pending == [o.origin] + (Origins(rest) + Kinds(asked[served..]) + PushedKind(pushed));
    } else {
      assert [] + Origins(rest) == Origins(rest);
    }
    PoppedPending(pending, o);
  }

  lemma PoppedPending(pending: seq<PacketType>, o: Out)
    requires if o.Reply? then pending != [] else IsPush(o)
    ensures Handles(pending, PacketOf(o)).pending == if o.Reply? then pending[1..] else pending
  {
    hide DecodeMessage, EncodeAll, C.DecoderFor;
  }

  lemma {:induction false} SentPosted(ps: seq<Posted>, sid: Sid, i: nat)
    requires i < |SentTo(ps, sid)|
    ensures Posted(sid, SentTo(ps, sid)[i]) in ps
  {
    var init := ps[..|ps| - 1];
    assert ps == init + [ps[|ps| - 1]];
    if i < |SentTo(init, sid)| {
      SentPosted(init, sid, i);
    }
  }

  lemma {:induction false} SentOnlyTo(ps: seq<Posted>, sid: Sid)
    requires forall p :: p in ps ==> p.to != sid
    ensures SentTo(ps, sid) == []
  {
    if ps != [] {
      var init := ps[..|ps| - 1];
      assert ps == init + [ps[|ps| - 1]];
      assert forall p :: p in init ==> p in ps;
      SentOnlyTo(init, sid);
      assert ps[|ps| - 1] in ps;
    }
  }

  // What a handled packet means for one session.

  lemma PacketSends(w: World, sid: Sid, t: PacketType, body: Bytes, env: Env, s: Sid) returns (added: seq<Out>)
    requires sid in w.live && HandlePacket(w, sid, t, body, env).Some?
    ensures SentTo(HandlePacket(w, sid, t, body, env).value.posted, s) == SentTo(w.posted, s) + added
    ensures Origins(added) == if s == sid && Answered(t) then [t] else []
  {
    hide HandlePacket, Origins, SentTo, Answered, HaveSchemas;
    var pushes, values := PacketOutput(w, sid, t, body, env);
    var reply := if Answered(t) then [Posted(sid, Reply(t, values))] else [];
    SentToAppend(w.posted, pushes, s);
    SentToAppend(w.posted + pushes, reply, s);
    added := SentTo(pushes, s) + SentTo(reply, s);
    OriginsAppend(SentTo(pushes, s), SentTo(reply, s));
    NoOrigins(pushes, s);
    if s == sid && Answered(t) {
      OneReply(sid, t, values);
    } else {
      NoOrigins(reply, s);
    }
  }

  lemma OneReply(sid: Sid, t: PacketType, values: seq<Value>)
    ensures Origins(SentTo([Posted(sid, Reply(t, values))], sid)) == [t]
  {
    var ps := [Posted(sid, Reply(t, values))];
    assert ps[..0] == [];
    assert SentTo(ps, sid) == [Reply(t, values)];
    OriginOf(Reply(t, values));
  }

  lemma PacketTyped(w: World, sid: Sid, t: PacketType, body: Bytes, env: Env)
    requires sid in w.live && HandlePacket(w, sid, t, body, env).Some? && Typed(w.posted)
    ensures Typed(HandlePacket(w, sid, t, body, env).value.posted)
  {
    hide HandlePacket;
    var pushes, values := PacketOutput(w, sid, t, body, env);
  }

  // The invariant under each kind of step.

  lemma JoinAlignment(sys: System)
    requires SysInv(sys)
    ensures SysInv(Step(sys, Join).value)
  {
    hide Inv;
    var w := sys.world;
    StepKeeps(w, Connect);
    NewSessionSilent(w);
    NewClientOk();
  }

  lemma NewSessionSilent(w: World)
    requires Inv(w)
    ensures SentTo(w.posted, w.nextSid) == []
  {
    SentOnlyTo(w.posted, w.nextSid);
  }

  lemma NewClientOk()
    ensures ChannelInv(NEW_CHANNEL) && Aligned([], NEW_CLIENT) && PacketsOf([]) == []
  {
  }

  lemma KnownType(t: PacketType)
    requires !t.Unknown?
    ensures TypeOfCode(TypeCode(t)) == t
  {
  }

  lemma PostsRequestAligns(w: World, sid: Sid, c: ClientState, kind: PacketType, body: Bytes)
    requires ClientOk(w, sid, c) && !kind.Unknown?
    requires PushedKind(c.pushed) == if Answered(kind) then [kind] else []
    ensures ClientOk(w, sid, PostsRequest(c, kind, body))
  {
    hide ChannelInv, InStep, AlignedAt, Send;
    var p := N.Packet(TypeCode(kind), body);
    SendKeeps(c.up, [p]);
    KnownType(kind);
    var c' := PostsRequest(c, kind, body);
    if Sound(c') {
      PostingAligns(SentTo(w.posted, sid), c.down.taken, c.up.posts, c.up.taken, c.pending, c.pushed, p);
    }
  }

  lemma SendingAlignment(sys: System, e: Event)
    requires SysInv(sys) && Step(sys, e).Some? && (e.Push? || e.PostPushed? || e.PostLogout?)
    ensures SysInv(Step(sys, e).value)
  {
    hide Inv, Typed, AlignedAt, ChannelInv, InStep, PostsRequest, SentTo;
    var c, sent := sys.clients[e.sid], SentTo(sys.world.posted, e.sid);
    match e
    case Push(_, kind) =>
      if Sound(c) {
        PushingKeepsAlignment(sent, c.down.taken, c.up.posts, c.up.taken, c.pending, kind);
      }
    case PostPushed(_, body) => PostsRequestAligns(sys.world, e.sid, c, c.pushed.value, body);
    case PostLogout(_, body) => PostsRequestAligns(sys.world, e.sid, c, Logout, body);
  }

  /** Bytes moving in either direction change nothing but the links. */
  lemma BytesAlignment(sys: System, e: Event)
    requires SysInv(sys) && Step(sys, e).Some? && (e.Moves? || e.Arrives?)
    ensures SysInv(Step(sys, e).value)
  {
    hide Inv, Typed, AlignedAt, ChannelInv, Move, Arrive, SentTo;
    var c := sys.clients[e.sid];
    var ch := if e.upward then c.up else c.down;
    match e
    case Moves(_, upward, event) => MoveKeeps(ch, event);
    case Arrives(_, upward, count) => ArriveKeeps(ch, count);
  }

  lemma TakeAlignment(sys: System, sid: Sid)
    requires SysInv(sys) && Step(sys, Take(sid)).Some?
    ensures SysInv(Step(sys, Take(sid)).value)
  {
    hide Inv, Handles, AlignedAt, ChannelInv, InStep, Next, SentTo;
    var c, sent := sys.clients[sid], SentTo(sys.world.posted, sid);
    HandOnKeeps(c.down);
    var c' := Takes(c);
    if Sound(c') {
      SentPosted(sys.world.posted, sid, c.down.taken);
      TakingKeepsAlignment(sent, c.down.taken, c.up.posts, c.up.taken, c.pending, c.pushed);
    }
  }

  lemma PostedDownKeeps(c: ClientState, before: seq<Out>, added: seq<Out>)
    requires ChannelInv(c.down) && c.down.posts == PacketsOf(before)
    ensures var c' := PostedDown(c, before, before + added);
            && c' == c.(down := c'.down)
            && ChannelInv(c'.down) && c'.down.posts == PacketsOf(before + added) && c'.down.taken == c.down.taken
            && (InStep(c'.down) ==> InStep(c.down))
  {
    hide ChannelInv, InStep, Send, PacketOf;
    assert (before + added)[|before|..] == added;
    SendKeeps(c.down, PacketsOf(added));
    assert PacketsOf(before) + PacketsOf(added) == PacketsOf(before + added);
  }

  lemma PacketAlignsOthers(w: World, sid: Sid, t: PacketType, body: Bytes, env: Env, s: Sid, c: ClientState)
    requires sid in w.live && HandlePacket(w, sid, t, body, env).Some? && s != sid && ClientOk(w, s, c)
    ensures var w' := HandlePacket(w, sid, t, body, env).value;
            ClientOk(w', s, PostedDown(c, SentTo(w.posted, s), SentTo(w'.posted, s)))
  {
    hide HandlePacket, AlignedAt, ChannelInv, InStep, SentTo, PostedDown;
    var added := PacketSends(w, sid, t, body, env, s);
    PostedDownKeeps(c, SentTo(w.posted, s), added);
    ServerRegistry.PacketSessions(w, sid, t, body, env);
    if Sound(c) {
      PushesKeepAlignment(SentTo(w.posted, s), added, c.down.taken, c.up.posts, c.up.taken, c.pending, c.pushed);
    }
  }

  lemma ServeAlignsSender(w: World, sid: Sid, c: ClientState, p: N.Packet, env: Env)
    requires ClientOk(w, sid, c) && Next(c.up) == Some(p)
    requires HandlePacket(w, sid, TypeOfCode(p.code), p.body, env).Some?
    ensures var w' := HandlePacket(w, sid, TypeOfCode(p.code), p.body, env).value;
            ClientOk(w', sid, PostedDown(c.(up := HandOn(c.up)), SentTo(w.posted, sid), SentTo(w'.posted, sid)))
  {
    hide HandlePacket, AlignedAt, ChannelInv, InStep, SentTo, PostedDown, Next;
    var added := PacketSends(w, sid, TypeOfCode(p.code), p.body, env, sid);
    HandOnKeeps(c.up);
    PostedDownKeeps(c.(up := HandOn(c.up)), SentTo(w.posted, sid), added);
    ServerRegistry.PacketSessions(w, sid, TypeOfCode(p.code), p.body, env);
    if InStep(HandOn(c.up)) && InStep(c.down) {
      ServingKeepsAlignment(SentTo(w.posted, sid), added, c.down.taken, c.up.posts, c.up.taken, c.pending, c.pushed);
    }
  }

  lemma ServeAlignment(sys: System, sid: Sid, env: Env, later: int)
    requires SysInv(sys) && Step(sys, Serve(sid, env, later)).Some?
    ensures SysInv(Step(sys, Serve(sid, env, later)).value)
  {
    hide HandlePacket, BrokenState, Restarted, Inv, ClientOk, Typed, PostedDown, Next;
    var c, w := sys.clients[sid], sys.world;
    var p := Next(c.up).value;
    var t := TypeOfCode(p.code);
    assert sid in w.live;
    var e := Server.Crash(sid, t, p.body, env, later);
    if HandlePacket(w, sid, t, p.body, env).None? {
      CrashIs(w, e);
      StepKeeps(w, e);
      ServerCopies.OthersPostNothing(w, e);
    } else {
      PacketKeeps(w, sid, t, p.body, env);
      PacketTyped(w, sid, t, p.body, env);
      ServeAlignsSender(w, sid, c, p, env);
      forall s | s in sys.clients && s != sid
        ensures var w' := HandlePacket(w, sid, t, p.body, env).value;
                ClientOk(w', s, PostedDown(sys.clients[s], SentTo(w.posted, s), SentTo(w'.posted, s)))
      {
        PacketAlignsOthers(w, sid, t, p.body, env, s, sys.clients[s]);
      }
    }
  }

  lemma CrashIs(w: World, e: Server.Event)
    requires e.Crash? && e.sid in w.live && HandlePacket(w, e.sid, e.kind, e.body, e.env).None?
    ensures Server.Step(w, e) == Some(Restarted(BrokenState(w, e.sid, e.kind, e.body, e.env), e.later))
  {
  }

  /** A server event that is no packet posts nothing, and every client whose connection it leaves goes on. */
  lemma QuietAlignment(w: World, e: Server.Event, s: Sid, c: ClientState, clients: map<Sid, ClientState>)
    requires Inv(w) && !e.Receive? && Server.Step(w, e).Some? && ClientOk(w, s, c)
    requires s in StillThere(clients, e)
    ensures var w' := Server.Step(w, e).value;
            ClientOk(w', s, PostedDown(c, SentTo(w.posted, s), SentTo(w'.posted, s)))
  {
    hide Inv, HandlePacket, AlignedAt, ChannelInv, InStep, SentTo, PostedDown;
    ServerCopies.OthersPostNothing(w, e);
    var sent := SentTo(w.posted, s);
    assert sent + [] == sent;
    PostedDownKeeps(c, sent, []);
  }

  lemma ForeignAlignment(sys: System, e: Server.Event)
    requires SysInv(sys) && Foreign(sys.clients, e) && Server.Step(sys.world, e).Some?
    ensures var w' := Server.Step(sys.world, e).value;
            SysInv(System(w', AllPostedDown(StillThere(sys.clients, e), sys.world, w')))
  {
    hide HandlePacket, Inv, Typed, ClientOk, PostedDown, SentTo;
    var w, w' := sys.world, Server.Step(sys.world, e).value;
    StepKeeps(w, e);
    if e.Receive? {
      PacketTyped(w, e.sid, e.kind, e.body, e.env);
    } else {
      ServerCopies.OthersPostNothing(w, e);
    }
    forall s | s in StillThere(sys.clients, e)
      ensures ClientOk(w', s, PostedDown(sys.clients[s], SentTo(w.posted, s), SentTo(w'.posted, s)))
    {
      if e.Receive? {
        PacketAlignsOthers(w, e.sid, e.kind, e.body, e.env, s, sys.clients[s]);
      } else {
        QuietAlignment(w, e, s, sys.clients[s], sys.clients);
      }
    }
  }

  lemma StepAlignment(sys: System, e: Event)
    requires SysInv(sys) && Step(sys, e).Some?
    ensures SysInv(Step(sys, e).value)
  {
    match e {
      case Join => JoinAlignment(sys);
      case Elsewhere(event) =>
        hide SysInv, Server.Step;
        ForeignAlignment(sys, event);
      case Serve(sid, env, later) =>
        hide *;
        ServeAlignment(sys, sid, env, later);
      case Take(sid) =>
        hide *;
        TakeAlignment(sys, sid);
      case Moves(_, _, _) =>
        hide *;
        BytesAlignment(sys, e);
      case Arrives(_, _, _) =>
        hide *;
        BytesAlignment(sys, e);
      case _ =>
        hide *;
        SendingAlignment(sys, e);
    }
  }

  /** In every reachable state, under any interleaving of the clients' threads, the server, pushes, LOGOUTs, bytes on
      the way and other connections: as long as every packet a client and its session have handled had a body
      shorter than 2^32 bytes, the client's pending queue is exactly the types of the RESULTs still travelling back,
      then of the requests still travelling out or unhandled, then at most one type pushed but not posted. */
  lemma {:induction false} QueueAlignment(sha256: Bytes -> ZeroFree, es: seq<Event>)
    requires Run(sha256, es).Some?
    ensures SysInv(Run(sha256, es).value)
  {
    hide Step, Inv, Server.Run;
    if es != [] {
      QueueAlignment(sha256, es[..|es| - 1]);
      StepAlignment(Run(sha256, es[..|es| - 1]).value, es[|es| - 1]);
    } else {
      StartOk(sha256);
    }
  }

  lemma StartOk(sha256: Bytes -> ZeroFree)
    ensures Inv(Start(sha256))
  {
    RunKeeps(sha256, []);
  }

  /** The exact limit: while a direction is in step, what its reader hands over next is the next packet posted there if
      and only if that packet's body is shorter than 2^32 bytes. */
  lemma NextPacketExactly(sha256: Bytes -> ZeroFree, es: seq<Event>, sid: Sid, upward: bool)
    requires Run(sha256, es).Some? && sid in Run(sha256, es).value.clients
    requires var c := Run(sha256, es).value.clients[sid];
             var ch := if upward then c.up else c.down;
             InStep(ch) && Next(ch).Some?
    ensures var c := Run(sha256, es).value.clients[sid];
            var ch := if upward then c.up else c.down;
            && ch.taken < |ch.posts|
            && (Next(ch).value == ch.posts[ch.taken] <==> |ch.posts[ch.taken].body| < U32_LIMIT)
    ensures var c := Run(sha256, es).value.clients[sid];
            c.down.posts == PacketsOf(SentTo(Run(sha256, es).value.world.posted, sid))
  {
    hide Run, Inv, Next, InStep, ChannelInv, Aligned;
    QueueAlignment(sha256, es);
    var c := Run(sha256, es).value.clients[sid];
    NextExactly(if upward then c.up else c.down);
  }

  // ---- what the client makes of each packet --------------------------------------------------

  /** What the server means by a packet, field by field. */
  function ExpectedCallback(o: Out): C.Callback
  {
    match o
    case Reply(origin, values) =>
      if origin in {Upload, Download, Message, DirectMessage} then C.Undecoded(origin) else C.OnResponse(origin, values)
    case ChatPush(sender, text) => C.OnIncoming(Message, [TextV(sender), TextV(text)])
    case LivePush(row, sender, text) =>
      C.OnIncoming(DirectMessage, [TextV(sender), TextV(text), Int64V(Signed(row))])
    case ReplayPush(_, _, sender, text, time) =>
      C.OnIncoming(DirectMessage, [TextV(sender), TextV(text), Int64V(Signed(time))])
    case Notice(_) => C.OnNotice
  }

  /** The number in the header: 6 for a RESULT, 5 for the chat, 11 for either copy of a direct message, and 16 to 18
      for the notices. */
  lemma PacketNumbers(o: Out)
    ensures PacketOf(o).code
         == match o
            case Reply(_, _) => 6
            case ChatPush(_, _) => 5
            case LivePush(_, _, _) => 11
            case ReplayPush(_, _, _, _, _) => 11
            case Notice(kind) => TypeCode(kind)
    ensures TypeCode(FriendNewRequest) == 16 && TypeCode(FriendRequestAccepted) == 17
    ensures TypeCode(FriendRequestRejected) == 18
  {
  }

  lemma PushComesBack(pending: seq<PacketType>, o: Out)
    requires IsPush(o) && AllFit(WireValues(o))
    ensures Handles(pending, PacketOf(o)) == C.Reaction(pending, ExpectedCallback(o))
  {
    hide DecodeMessage, EncodeAll, AllFit, HaveSchemas;
    if !o.Notice? {
      var ss := if o.ChatPush? then CHAT_INCOMING else ENTRY;
      if o.ChatPush? {
        Fields2(TextV(o.sender), TextV(o.text), Text, Text);
      } else {
        Fields3(WireValues(o)[0], WireValues(o)[1], WireValues(o)[2], Text, Text, Int64);
      }
      MessageRoundTrip(WireValues(o), ss);
    }
  }

  /** The queue is never empty on a RESULT, and the callback gets exactly the fields the server meant. */
  lemma TakenIsUnderstood(sent: seq<Out>, c: ClientState)
    requires Aligned(sent, c) && c.down.taken < |sent| && |PacketOf(sent[c.down.taken]).body| < U32_LIMIT
    requires var o := sent[c.down.taken];
             if o.Reply? then Answered(o.origin) && HaveSchemas(o.values, ResponseSchema(o.origin)) else IsPush(o)
    ensures Handles(c.pending, PacketOf(sent[c.down.taken])).callback == ExpectedCallback(sent[c.down.taken])
  {
    hide DecodeMessage, EncodeAll, AllFit, HaveSchemas, C.DecoderFor, AlignedAt;
    var o := sent[c.down.taken];
    TakingKeepsAlignment(sent, c.down.taken, c.up.posts, c.up.taken, c.pending, c.pushed);
    ShortAllFit(WireValues(o));
    if o.Reply? {
      assert c.pending == [c.pending[0]] + c.pending[1..];
      C.ResponseComesBack(o.origin, o.values, c.pending[1..]);
    } else {
      PushComesBack(c.pending, o);
    }
  }

  /** End to end: whenever a client hands over a packet in a reachable state, and that packet and all it and its session
      handled before had bodies shorter than 2^32 bytes, its callback gets exactly the fields the server meant, decoded
      as the response of the handler that produced them. The queue is never empty on a RESULT and decoding never
      fails. */
  lemma EveryPacketUnderstood(sha256: Bytes -> ZeroFree, es: seq<Event>, sid: Sid)
    requires Run(sha256, es).Some? && sid in Run(sha256, es).value.clients
    requires var c := Run(sha256, es).value.clients[sid];
             && Sound(c) && Next(c.down).Some?
             && (c.down.taken < |c.down.posts| ==> |c.down.posts[c.down.taken].body| < U32_LIMIT)
    ensures var sys := Run(sha256, es).value;
            var c, sent := sys.clients[sid], SentTo(sys.world.posted, sid);
            && c.down.taken < |sent|
            && Handles(c.pending, Next(c.down).value).callback == ExpectedCallback(sent[c.down.taken])
            && (sent[c.down.taken].Reply? ==> c.pending != [] && c.pending[0] == sent[c.down.taken].origin)
  {
    hide Run, Handles, ExpectedCallback, Inv, AlignedAt, Next, InStep, ChannelInv, SentTo;
    QueueAlignment(sha256, es);
    var sys := Run(sha256, es).value;
    var c, sent := sys.clients[sid], SentTo(sys.world.posted, sid);
    NextExactly(c.down);
    SentPosted(sys.world.posted, sid, c.down.taken);
    TakenIsUnderstood(sent, c);
    TakingKeepsAlignment(sent, c.down.taken, c.up.posts, c.up.taken, c.pending, c.pushed);
  }

  /** Why LOGOUT must not go through the queue: whatever is still on its way, after a type has been queued and its
      packet posted the queue is aligned if and only if the type is one the server answers. */
  lemma OnlyAnsweredTypesMayBeQueued(sent: seq<Out>, c: ClientState, t: PacketType, body: Bytes)
    requires Aligned(sent, c) && c.pushed.None? && !t.Unknown? && ChannelInv(c.up)
    ensures Aligned(sent, PostsRequest(c.(pending := c.pending + [t], pushed := Some(t)), t, body)) <==> Answered(t)
  {
    hide AlignedAt, ChannelInv, Send;
    var p := N.Packet(TypeCode(t), body);
    SendKeeps(c.up, [p]);
    KnownType(t);
    PushingKeepsAlignment(sent, c.down.taken, c.up.posts, c.up.taken, c.pending, t);
    PostingAligns(sent, c.down.taken, c.up.posts, c.up.taken, c.pending + [t], Some(t), p);
  }
}

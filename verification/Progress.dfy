/** Nothing waits for ever: from any reachable state what was posted can be handled, and handling it does what it is
    for. */
module Progress {
  import opened Wire
  import opened Protocol
  import opened Channels
  import opened Correlation
  import S = Server
  import ServerSafety
  import N = Network

  /** No write has failed, and every packet posted has a body shorter than 2^32 bytes. */
  predicate Open(ch: Channel)
  {
    !ch.link.failed && N.Framable(ch.posts)
  }

  function Direction(c: ClientState, upward: bool): Channel
  {
    if upward then c.up else c.down
  }

  function WithDirection(sys: System, sid: S.Sid, upward: bool, ch: Channel): (r: System)
    requires sid in sys.clients
    ensures r.world == sys.world && sid in r.clients
    ensures r.clients.Keys == sys.clients.Keys
    ensures forall s :: s in sys.clients && s != sid ==> r.clients[s] == sys.clients[s]
    ensures r.clients[sid] == if upward then sys.clients[sid].(up := ch) else sys.clients[sid].(down := ch)
  {
    UpdateClient(sys, sid, if upward then sys.clients[sid].(up := ch) else sys.clients[sid].(down := ch))
  }

  lemma Extended(sha256: Bytes -> ZeroFree, es: seq<Event>, e: Event)
    requires Run(sha256, es).Some?
    ensures Run(sha256, es + [e]) == Step(Run(sha256, es).value, e)
  {
    hide Step;
    assert (es + [e])[..|es|] == es;
  }

  predicate Writes(ls: seq<N.LinkEvent>)
  {
    forall l :: l in ls ==> !l.Post?
  }

  lemma {:induction false} DrainWrites(l: N.Link)
    requires N.LinkInv(l) && !l.failed
    ensures Writes(N.Drain(l))
    decreases |l.posted| + |l.queue|, |l.posted|
  {
    hide Writes;
    if l.queue != [] {
      var e1, e2 := N.Emit(|l.queue[0]| - l.emitted), N.Complete;
      N.LinkStep(l, e1);
      N.LinkStep(N.Apply(l, e1), e2);
      DrainWrites(N.Apply(N.Apply(l, e1), e2));
      WritesBefore([e1, e2], N.Drain(N.Apply(N.Apply(l, e1), e2)));
    } else if l.posted != [] {
      N.LinkStep(l, N.RunPosted);
      DrainWrites(N.Apply(l, N.RunPosted));
      WritesBefore([N.RunPosted], N.Drain(N.Apply(l, N.RunPosted)));
    } else {
      WritesNone();
    }
  }

  lemma WritesNone()
    ensures Writes([])
  {
  }

  lemma WritesBefore(now: seq<N.LinkEvent>, later: seq<N.LinkEvent>)
    requires Writes(later) && forall l :: l in now ==> !l.Post?
    ensures Writes(now + later)
  {
  }

  /** The writer of one direction does some of its work. */
  lemma {:induction false} Written(sha256: Bytes -> ZeroFree, es: seq<Event>, sid: S.Sid, upward: bool,
                                   ls: seq<N.LinkEvent>) returns (fs: seq<Event>)
    requires Run(sha256, es).Some? && sid in Run(sha256, es).value.clients && Writes(ls)
    requires N.ApplyAll(Direction(Run(sha256, es).value.clients[sid], upward).link, ls).Some?
    ensures var sys := Run(sha256, es).value;
            var ch := Direction(sys.clients[sid], upward);
            Run(sha256, fs) == Some(WithDirection(sys, sid, upward, ch.(link := N.ApplyAll(ch.link, ls).value)))
    decreases |ls|
  {
    hide Run, N.Apply, N.Enabled;
    var sys := Run(sha256, es).value;
    var ch := Direction(sys.clients[sid], upward);
    if ls == [] {
      fs := es;
      assert sys.clients == sys.clients[sid := sys.clients[sid]];
    } else {
      assert ls[0] in ls && forall l :: l in ls[1..] ==> l in ls;
      var e := Moves(sid, upward, ls[0]);
      Extended(sha256, es, e);
      var sys1 := WithDirection(sys, sid, upward, ch.(link := N.Apply(ch.link, ls[0])));
      assert Step(sys, e) == Some(sys1);
      fs := Written(sha256, es + [e], sid, upward, ls[1..]);
      var ch' := ch.(link := N.ApplyAll(ch.link, ls).value);
      assert WithDirection(sys1, sid, upward, ch').clients == WithDirection(sys, sid, upward, ch').clients;
    }
  }

  /** Everything posted in one direction reaches its reader. */
  lemma Delivered(sha256: Bytes -> ZeroFree, es: seq<Event>, sid: S.Sid, upward: bool)
      returns (fs: seq<Event>, ch': Channel)
    requires Run(sha256, es).Some? && sid in Run(sha256, es).value.clients
    requires Open(Direction(Run(sha256, es).value.clients[sid], upward))
    ensures var sys := Run(sha256, es).value;
            var ch := Direction(sys.clients[sid], upward);
            && Run(sha256, fs) == Some(WithDirection(sys, sid, upward, ch'))
            && ch'.posts == ch.posts && ch'.taken == ch.taken
    ensures ChannelInv(ch') && Open(ch')
    ensures ch'.link.queue == [] && ch'.link.posted == [] && ch'.received == ch'.link.wire
  {
    hide Run, N.ApplyAll, N.Drain, N.Framable, Step, ChannelInv;
    ChannelsIn(sha256, es, sid, upward);
    var sys := Run(sha256, es).value;
    var ch := Direction(sys.clients[sid], upward);
    Drained(ch);
    var l := N.ApplyAll(ch.link, N.Drain(ch.link)).value;
    var gs := Written(sha256, es, sid, upward, N.Drain(ch.link));
    ChannelsIn(sha256, gs, sid, upward);
    var sys1 := WithDirection(sys, sid, upward, ch.(link := l));
    NothingHeld(ch.(link := l));
    var e := Arrives(sid, upward, |l.wire| - |ch.received|);
    ch' := ch.(link := l, received := l.wire);
    ArrivesWhole(sys1, sid, upward);
    Extended(sha256, gs, e);
    fs := gs + [e];
    assert WithDirection(sys1, sid, upward, ch').clients == WithDirection(sys, sid, upward, ch').clients;
    ChannelsIn(sha256, fs, sid, upward);
  }

  lemma ChannelsIn(sha256: Bytes -> ZeroFree, es: seq<Event>, sid: S.Sid, upward: bool)
    requires Run(sha256, es).Some? && sid in Run(sha256, es).value.clients
    ensures ChannelInv(Direction(Run(sha256, es).value.clients[sid], upward))
  {
    hide Run, ServerSafety.Inv, ChannelInv, Typed;
    QueueAlignment(sha256, es);
  }

  lemma Drained(ch: Channel)
    requires ChannelInv(ch) && !ch.link.failed
    ensures N.LinkInv(ch.link) && Writes(N.Drain(ch.link))
    ensures var l := N.ApplyAll(ch.link, N.Drain(ch.link));
            l.Some? && l.value.queue == [] && l.value.posted == []
  {
    hide N.LinkInv;
    N.Drains(ch.link);
    DrainWrites(ch.link);
  }

  lemma NothingHeld(ch: Channel)
    requires ChannelInv(ch) && ch.link.queue == []
    ensures !ch.link.failed && ch.received <= ch.link.wire
  {
  }

  lemma ArrivesWhole(sys: System, sid: S.Sid, upward: bool)
    requires sid in sys.clients
    requires var ch := Direction(sys.clients[sid], upward); ch.received <= ch.link.wire
    ensures var ch := Direction(sys.clients[sid], upward);
            Step(sys, Arrives(sid, upward, |ch.link.wire| - |ch.received|))
            == Some(WithDirection(sys, sid, upward, ch.(received := ch.link.wire)))
  {
    var ch := Direction(sys.clients[sid], upward);
    assert ch.link.wire[..|ch.link.wire|] == ch.link.wire;
  }

  // ---- the client's side ---------------------------------------------------------------------

  function AfterTaking(c: ClientState): ClientState
    requires c.up.taken <= |c.up.posts|
  {
    c.(pending := Kinds(c.up.posts[c.up.taken..]) + PushedKind(c.pushed), down := c.down.(taken := |c.down.posts|))
  }

  lemma TakenOnce(sys: System, sid: S.Sid)
    requires SysInv(sys) && sid in sys.clients
    requires var c := sys.clients[sid];
             Sound(c) && !c.broken && Open(c.down) && c.down.taken < |c.down.posts| && Next(c.down).Some?
    ensures var c, c' := sys.clients[sid], Takes(sys.clients[sid]);
            && Step(sys, Take(sid)) == Some(UpdateClient(sys, sid, c'))
            && c' == c.(pending := c'.pending, down := HandOn(c.down)) && Sound(c')
  {
    hide ServerSafety.Inv, Handles, ExpectedCallback, AlignedAt, Next, ChannelInv, S.SentTo;
    var c, sent := sys.clients[sid], S.SentTo(sys.world.posted, sid);
    NextExactly(c.down);
    SentPosted(sys.world.posted, sid, c.down.taken);
    TakenIsUnderstood(sent, c);
    NotBroken(sent[c.down.taken]);
  }

  lemma NotBroken(o: S.Out)
    ensures !ExpectedCallback(o).Broken?
  {
  }

  lemma {:induction false} TakenAll(sha256: Bytes -> ZeroFree, es: seq<Event>, sid: S.Sid) returns (fs: seq<Event>)
    requires Run(sha256, es).Some? && sid in Run(sha256, es).value.clients
    requires var c := Run(sha256, es).value.clients[sid];
             && Sound(c) && !c.broken && Open(c.down)
             && c.down.link.queue == [] && c.down.link.posted == [] && c.down.received == c.down.link.wire
             && c.down.taken <= |c.down.posts|
    ensures var sys := Run(sha256, es).value;
            Run(sha256, fs) == Some(UpdateClient(sys, sid, AfterTaking(sys.clients[sid])))
    decreases |Run(sha256, es).value.clients[sid].down.posts| - Run(sha256, es).value.clients[sid].down.taken
  {
    hide Run, ServerSafety.Inv, Step, Next, Takes, ChannelInv, S.SentTo, Origins, Kinds;
    QueueAlignment(sha256, es);
    var sys := Run(sha256, es).value;
    var c := sys.clients[sid];
    AllArrive(c.down);
    if c.down.taken < |c.down.posts| {
      TakenOnce(sys, sid);
      Extended(sha256, es, Take(sid));
      fs := TakenAll(sha256, es + [Take(sid)], sid);
      var sys1 := UpdateClient(sys, sid, Takes(c));
      assert UpdateClient(sys1, sid, AfterTaking(c)) == UpdateClient(sys, sid, AfterTaking(c));
    } else {
      fs := es;
      NothingComing(S.SentTo(sys.world.posted, sid), c);
      assert sys.clients[sid := c] == sys.clients;
    }
  }

  lemma NothingComing(sent: seq<S.Out>, c: ClientState)
    requires Aligned(sent, c) && c.down.taken == |sent|
    ensures c.pending == Kinds(c.up.posts[c.up.taken..]) + PushedKind(c.pushed)
  {
    hide Kinds;
    assert sent[c.down.taken..] == [];
    assert Origins([]) == [];
  }

  /** Every RESULT gets home: as long as its I/O thread lives and no write failed, a client can take everything posted
      to it, and is left waiting for exactly the requests that the server has not handled yet. */
  lemma EverythingCanBeTaken(sha256: Bytes -> ZeroFree, es: seq<Event>, sid: S.Sid)
      returns (fs: seq<Event>, ch': Channel)
    requires Run(sha256, es).Some? && sid in Run(sha256, es).value.clients
    requires var c := Run(sha256, es).value.clients[sid];
             Sound(c) && !c.broken && Open(c.down)
    ensures var sys := Run(sha256, es).value;
            var c := sys.clients[sid];
            && ch'.posts == c.down.posts && ch'.taken == |ch'.posts| && c.up.taken <= |c.up.posts|
            && var pending := Kinds(c.up.posts[c.up.taken..]) + PushedKind(c.pushed);
               Run(sha256, fs) == Some(UpdateClient(sys, sid, c.(pending := pending, down := ch')))
  {
    hide Run, ServerSafety.Inv, Kinds, ChannelInv, N.Framable, AlignedAt;
    QueueAlignment(sha256, es);
    var sys := Run(sha256, es).value;
    var c := sys.clients[sid];
    var gs, ch := Delivered(sha256, es, sid, false);
    fs := TakenAll(sha256, gs, sid);
    ch' := ch.(taken := |ch.posts|);
    var sys1 := WithDirection(sys, sid, false, ch);
    assert UpdateClient(sys1, sid, AfterTaking(sys1.clients[sid])).clients
        == UpdateClient(sys, sid, AfterTaking(sys1.clients[sid])).clients;
  }

  // ---- the server's side ---------------------------------------------------------------------

  /** Every request arrives: as long as no write failed, the next packet a client posted can be handled, as that packet,
      whatever is on its way elsewhere. Each client finds what the handler posted to it behind what was posted before;
      if the handler throws, everything starts again without connections. */
  lemma NextRequestCanBeServed(sha256: Bytes -> ZeroFree, es: seq<Event>, sid: S.Sid, env: S.Env, later: int)
      returns (fs: seq<Event>)
    requires Run(sha256, es).Some? && sid in Run(sha256, es).value.clients
    requires var c := Run(sha256, es).value.clients[sid];
             Open(c.up) && c.up.taken < |c.up.posts|
    ensures var sys := Run(sha256, es).value;
            var p := sys.clients[sid].up.posts[sys.clients[sid].up.taken];
            && sid in sys.world.live && Run(sha256, fs).Some?
            && var sys', w' := Run(sha256, fs).value,
                               S.HandlePacket(sys.world, sid, TypeOfCode(p.code), p.body, env);
               if w'.None? then
                 var broken := S.BrokenState(sys.world, sid, TypeOfCode(p.code), p.body, env);
                 sys' == System(S.Restarted(broken, later), map[])
               else
                 && sys'.world == w'.value && sys'.clients.Keys == sys.clients.Keys
                 && forall s :: s in sys.clients ==>
                      var c, c' := sys.clients[s], sys'.clients[s];
                      && c'.pending == c.pending && c'.pushed == c.pushed && c'.broken == c.broken
                      && c'.up.posts == c.up.posts && c'.up.taken == c.up.taken + (if s == sid then 1 else 0)
                      && c'.down.posts == PacketsOf(S.SentTo(w'.value.posted, s)) && c'.down.taken == c.down.taken
                      && c'.down.link.failed == c.down.link.failed
  {
    hide Run, ServerSafety.Inv, S.HandlePacket, S.BrokenState, ChannelInv, AlignedAt, Next, S.SentTo, N.Framable;
    var sys := Run(sha256, es).value;
    QueueAlignment(sha256, es);
    var gs, ch := Delivered(sha256, es, sid, true);
    QueueAlignment(sha256, gs);
    AllArrive(ch);
    InStepWhenOpen(ch);
    ShortNext(ch);
    var sys1 := WithDirection(sys, sid, true, ch);
    Extended(sha256, gs, Serve(sid, env, later));
    fs := gs + [Serve(sid, env, later)];
    QueueAlignment(sha256, fs);
    var p := ch.posts[ch.taken];
    if S.HandlePacket(sys.world, sid, TypeOfCode(p.code), p.body, env).Some? {
      ServedClients(sys1, sid, p, env, later);
    }
  }

  lemma ShortNext(ch: Channel)
    requires ChannelInv(ch) && InStep(ch) && Open(ch) && Next(ch).Some?
    ensures ch.taken < |ch.posts| && Next(ch).value == ch.posts[ch.taken]
  {
    hide ChannelInv, Next;
    NextExactly(ch);
  }

  lemma ServedClients(sys: System, sid: S.Sid, p: N.Packet, env: S.Env, later: int)
    requires SysInv(sys) && sid in sys.clients && Next(sys.clients[sid].up) == Some(p)
    requires S.HandlePacket(sys.world, sid, TypeOfCode(p.code), p.body, env).Some?
    ensures var sys' := Served(sys, sid, p, env, later);
            && sys'.clients.Keys == sys.clients.Keys
            && forall s :: s in sys.clients ==>
                 var c, c' := sys.clients[s], sys'.clients[s];
                 && c' == c.(up := c'.up, down := c'.down)
                 && c'.up == (if s == sid then HandOn(c.up) else c.up)
                 && c'.down.taken == c.down.taken && c'.down.link.failed == c.down.link.failed
  {
    hide ServerSafety.Inv, S.HandlePacket, ChannelInv, AlignedAt, Next, S.SentTo, InStep;
    var w := sys.world;
    var t := TypeOfCode(p.code);
    var w' := S.HandlePacket(w, sid, t, p.body, env).value;
    forall s | s in sys.clients
      ensures var c := if s == sid then sys.clients[s].(up := HandOn(sys.clients[s].up)) else sys.clients[s];
              var c' := PostedDown(c, S.SentTo(w.posted, s), S.SentTo(w'.posted, s));
              && c' == c.(down := c'.down) && c'.down.taken == c.down.taken
              && c'.down.link.failed == c.down.link.failed
    {
      var c := if s == sid then sys.clients[s].(up := HandOn(sys.clients[s].up)) else sys.clients[s];
      var added := PacketSends(w, sid, t, p.body, env, s);
      PostedDownKeeps(c, S.SentTo(w.posted, s), added);
      SendingFailsNothing(c.down, PacketsOf((S.SentTo(w.posted, s) + added)[|S.SentTo(w.posted, s)|..]));
    }
  }

  lemma {:induction false} SendingFailsNothing(ch: Channel, ps: seq<N.Packet>)
    ensures Send(ch, ps).link.failed == ch.link.failed
    decreases |ps|
  {
    if ps != [] {
      SendingFailsNothing(ch.(posts := ch.posts + [ps[0]], link := N.Apply(ch.link, N.Post(N.Frame(ps[0])))), ps[1..]);
    }
  }

  /** Every request can be answered: from any reachable state the client's next request is handled, unless that throws,
      and then everything posted to the client is taken, the RESULT included; what the client then waits for is exactly
      its later requests. */
  lemma NextRequestCanBeAnswered(sha256: Bytes -> ZeroFree, es: seq<Event>, sid: S.Sid, env: S.Env)
      returns (fs: seq<Event>)
    requires Run(sha256, es).Some? && sid in Run(sha256, es).value.clients
    requires var c := Run(sha256, es).value.clients[sid];
             Open(c.up) && c.up.taken < |c.up.posts| && !c.down.link.failed && !c.broken
    ensures var sys := Run(sha256, es).value;
            var c := sys.clients[sid];
            var p := c.up.posts[c.up.taken];
            && sid in sys.world.live
            && var w' := S.HandlePacket(sys.world, sid, TypeOfCode(p.code), p.body, env);
               w'.Some? && N.Framable(PacketsOf(S.SentTo(w'.value.posted, sid))) ==>
                 && Run(sha256, fs).Some? && Run(sha256, fs).value.clients.Keys == sys.clients.Keys
                 && Run(sha256, fs).value.world == w'.value
                 && var c' := Run(sha256, fs).value.clients[sid];
                    && c'.down.posts == PacketsOf(S.SentTo(w'.value.posted, sid)) && c'.down.taken == |c'.down.posts|
                    && c'.pending == Kinds(c.up.posts[c.up.taken + 1..]) + PushedKind(c.pushed)
  {
    hide Run, S.HandlePacket, ChannelInv, AlignedAt, Next, S.SentTo, Kinds, N.Framable, InStep, S.BrokenState;
    var sys := Run(sha256, es).value;
    var c := sys.clients[sid];
    var p := c.up.posts[c.up.taken];
    var gs := NextRequestCanBeServed(sha256, es, sid, env, 0);
    var w' := S.HandlePacket(sys.world, sid, TypeOfCode(p.code), p.body, env);
    fs := gs;
    if w'.Some? && N.Framable(PacketsOf(S.SentTo(w'.value.posted, sid))) {
      var c1 := Run(sha256, gs).value.clients[sid];
      ChannelsIn(sha256, gs, sid, true);
      ChannelsIn(sha256, gs, sid, false);
      InStepWhenOpen(c1.up);
      InStepWhenOpen(c1.down);
      var ch;
      fs, ch := EverythingCanBeTaken(sha256, gs, sid);
    }
  }

  lemma InStepWhenOpen(ch: Channel)
    requires ChannelInv(ch) && N.Framable(ch.posts)
    ensures InStep(ch)
  {
    hide N.Framable;
    assert ch.posts == ch.posts[..ch.taken] + ch.posts[ch.taken..];
    FramablePrefix(ch.posts[..ch.taken], ch.posts[ch.taken..]);
  }
}

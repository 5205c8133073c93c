/**
 What NetworkSession promises: the write queue puts whole frames on the wire in the order they were
 posted, and the header/body reader takes them off again under any chunking.
 */
module Network {
  import opened Wire
  import opened Protocol

  datatype Packet = Packet(code: U32, body: Bytes)

  /** send_packet's full_packet: type, length (cut to 32 bits), body. */
  function Frame(p: Packet): (s: Bytes)
    ensures |s| == 8 + |p.body|
  {
    PutU32(p.code) + PutU32(|p.body|) + p.body
  }

  function Frames(ps: seq<Packet>): (fs: seq<Bytes>)
    ensures |fs| == |ps|
  {
    if ps == [] then [] else [Frame(ps[0])] + Frames(ps[1..])
  }

  function Stream(ps: seq<Packet>): Bytes
  {
    Flat(Frames(ps))
  }

  predicate Framable(ps: seq<Packet>)
  {
    forall i :: 0 <= i < |ps| ==> |ps[i].body| < U32_LIMIT
  }

  // ---- the write side ------------------------------------------------------------------------

  /** One endpoint's outgoing direction. posted is the executor's FIFO of send_packet lambdas, queue is
      write_queue with the buffer being written in front, emitted counts the bytes of that buffer
      already on the wire. sent and wire record what has left. */
  datatype Link = Link(
    posted: seq<Bytes>,
    queue: seq<Bytes>,
    busy: bool,
    failed: bool,
    emitted: nat,
    sent: seq<Bytes>,
    wire: Bytes)

  const IDLE_LINK := Link([], [], false, false, 0, [], [])

  datatype LinkEvent =
    | Post(frame: Bytes)   // a thread calls send_packet
    | RunPosted            // the executor runs the oldest posted lambda
    | Emit(count: nat)     // the socket accepts some bytes of the front buffer
    | Complete             // async_write finishes without error
    | Fail                 // async_write finishes with an error

  predicate Enabled(l: Link, e: LinkEvent)
  {
    match e
    case Post(_) => true
    case RunPosted => l.posted != []
    case Emit(k) => l.busy && l.queue != [] && l.emitted + k <= |l.queue[0]|
    case Complete => l.busy && l.queue != [] && l.emitted == |l.queue[0]|
    case Fail => l.busy
  }

  function Apply(l: Link, e: LinkEvent): Link
    requires Enabled(l, e)
  {
    match e
    case Post(f) => l.(posted := l.posted + [f])
    case RunPosted =>
      var l' := l.(posted := l.posted[1..], queue := l.queue + [l.posted[0]]);
      if l.queue == [] then l'.(busy := true, emitted := 0) else l'
    case Emit(k) =>
      l.(wire := l.wire + l.queue[0][l.emitted..l.emitted + k], emitted := l.emitted + k)
    case Complete =>
      l.(sent := l.sent + [l.queue[0]], queue := l.queue[1..], emitted := 0, busy := l.queue[1..] != [])
    case Fail => l.(busy := false, failed := true)
  }

  function RunLink(es: seq<LinkEvent>): Option<Link>
  {
    if es == [] then Some(IDLE_LINK)
    else
      var l := RunLink(es[..|es| - 1]);
      var e := es[|es| - 1];
      if l.Some? && Enabled(l.value, e) then Some(Apply(l.value, e)) else None
  }

  function Posts(es: seq<LinkEvent>): seq<Bytes>
  {
    if es == [] then []
    else
      var e, before := es[|es| - 1], Posts(es[..|es| - 1]);
      if e.Post? then before + [e.frame] else before
  }

  /** At most one write is outstanding, exactly while the queue is non-empty and nothing has failed. */
  predicate LinkInv(l: Link)
  {
    && (l.busy <==> l.queue != [] && !l.failed)
    && (l.failed ==> l.queue != [])
    && l.emitted <= (if l.queue == [] then 0 else |l.queue[0]|)
    && l.wire == Flat(l.sent) + if l.queue == [] then [] else l.queue[0][..l.emitted]
  }

  lemma LinkStep(l: Link, e: LinkEvent)
    requires LinkInv(l) && Enabled(l, e)
    ensures LinkInv(Apply(l, e))
    ensures var l' := Apply(l, e);
            l'.sent + l'.queue + l'.posted
            == if e.Post? then l.sent + l.queue + l.posted + [e.frame] else l.sent + l.queue + l.posted
  {
    LinkInvStep(l, e);
    LinkOrderStep(l, e);
  }

  lemma LinkInvStep(l: Link, e: LinkEvent)
    requires LinkInv(l) && Enabled(l, e)
    ensures LinkInv(Apply(l, e))
  {
    hide Flat;
    match e
    case Emit(k) =>
      var front, i := l.queue[0], l.emitted;
      assert front[..i + k] == front[..i] + front[i..i + k];
      Regroup(Flat(l.sent), front[..i], front[i..i + k]);
    case Complete =>
      var front := l.queue[0];
      assert front[..l.emitted] == front;
      assert front[..0] == [] && l.queue[1..] != [] ==> l.queue[1..][0][..0] == [];
      FlatAppendOne(l.sent, front);
    case _ =>
  }

  lemma LinkOrderStep(l: Link, e: LinkEvent)
    requires LinkInv(l) && Enabled(l, e)
    ensures var l' := Apply(l, e);
            l'.sent + l'.queue + l'.posted
            == if e.Post? then l.sent + l.queue + l.posted + [e.frame] else l.sent + l.queue + l.posted
  {
    hide LinkInv;
    match e
    case Post(f) => Regroup(l.sent + l.queue, l.posted, [f]);
    case RunPosted =>
      assert l.posted == [l.posted[0]] + l.posted[1..];
      Regroup(l.sent, l.queue, [l.posted[0]]);
      Regroup(l.sent + l.queue, [l.posted[0]], l.posted[1..]);
    case Complete =>
      assert l.queue == [l.queue[0]] + l.queue[1..];
      Regroup(l.sent, [l.queue[0]], l.queue[1..]);
    case _ =>
  }

  lemma FlatAppendOne(fs: seq<Bytes>, f: Bytes)
    ensures Flat(fs + [f]) == Flat(fs) + f
  {
    FlatAppend(fs, [f]);
    assert Flat([f]) == f + Flat([]);
  }

  /** In every run: the frames sent, queued and waiting are the posted ones in post order, the wire holds
      a prefix of their concatenation, and the one outstanding write is the queue's front. */
  lemma {:induction false} LinkRun(es: seq<LinkEvent>)
    requires RunLink(es).Some?
    ensures var l := RunLink(es).value;
            && LinkInv(l)
            && l.sent + l.queue + l.posted == Posts(es)
            && l.wire <= Flat(Posts(es))
  {
    if es != [] {
      LinkRun(es[..|es| - 1]);
      LinkStep(RunLink(es[..|es| - 1]).value, es[|es| - 1]);
    }
    WirePrefix(RunLink(es).value);
  }

  lemma WirePrefix(l: Link)
    requires LinkInv(l)
    ensures l.wire <= Flat(l.sent + l.queue + l.posted)
  {
    FlatAppend(l.sent + l.queue, l.posted);
    FlatAppend(l.sent, l.queue);
    if l.queue != [] {
      assert l.queue[0][..l.emitted] <= Flat(l.queue);
    }
  }

  /** After a write error the wire never grows again and no further write starts. */
  lemma {:induction false} NothingAfterFailure(es: seq<LinkEvent>, more: seq<LinkEvent>)
    requires RunLink(es + more).Some? && RunLink(es).Some? && RunLink(es).value.failed
    ensures var l := RunLink(es + more).value;
            l.failed && !l.busy && l.wire == RunLink(es).value.wire && l.sent == RunLink(es).value.sent
    decreases |more|
  {
    if more == [] {
      assert es + more == es;
      LinkRun(es);
    } else {
      var shorter := more[..|more| - 1];
      assert (es + more)[..|es + more| - 1] == es + shorter;
      NothingAfterFailure(es, shorter);
      LinkRun(es + shorter);
    }
  }

  /** The steps that empty a link on which no error happens. */
  function Drain(l: Link): seq<LinkEvent>
    requires LinkInv(l) && !l.failed
    decreases |l.posted| + |l.queue|, |l.posted|
  {
    if l.queue != [] then
      var e1, e2 := Emit(|l.queue[0]| - l.emitted), Complete;
      LinkStep(l, e1);
      LinkStep(Apply(l, e1), e2);
      [e1, e2] + Drain(Apply(Apply(l, e1), e2))
    else if l.posted != [] then
      LinkStep(l, RunPosted);
      [RunPosted] + Drain(Apply(l, RunPosted))
    else []
  }

  function ApplyAll(l: Link, es: seq<LinkEvent>): Option<Link>
    decreases |es|
  {
    if es == [] then Some(l)
    else if Enabled(l, es[0]) then ApplyAll(Apply(l, es[0]), es[1..]) else None
  }

  lemma ApplyFirst(l: Link, e: LinkEvent, es: seq<LinkEvent>)
    requires Enabled(l, e)
    ensures ApplyAll(l, [e] + es) == ApplyAll(Apply(l, e), es)
  {
    assert ([e] + es)[1..] == es;
  }

  /** No deadlock: as long as no write failed, everything posted can still be put on the wire. */
  lemma {:induction false} Drains(l: Link)
    requires LinkInv(l) && !l.failed
    ensures var done := ApplyAll(l, Drain(l));
            && done.Some?
            && done.value.wire == Flat(l.sent + l.queue + l.posted)
            && done.value.queue == [] && done.value.posted == []
    decreases |l.posted| + |l.queue|, |l.posted|
  {
    hide ApplyAll, Flat;
    if l.queue != [] {
      var e1, e2 := Emit(|l.queue[0]| - l.emitted), Complete;
      var l1 := Apply(l, e1);
      LinkStep(l, e1);
      LinkStep(l1, e2);
      var rest := Drain(Apply(l1, e2));
      Drains(Apply(l1, e2));
      assert [e1, e2] + rest == [e1] + ([e2] + rest);
      ApplyFirst(l, e1, [e2] + rest);
      ApplyFirst(l1, e2, rest);
    } else if l.posted != [] {
      LinkStep(l, RunPosted);
      Drains(Apply(l, RunPosted));
      ApplyFirst(l, RunPosted, Drain(Apply(l, RunPosted)));
    } else {
      Drained(l);
    }
  }

  lemma Drained(l: Link)
    requires LinkInv(l) && l.queue == [] && l.posted == []
    ensures ApplyAll(l, []) == Some(l) && l.wire == Flat(l.sent + l.queue + l.posted)
  {
    assert l.sent + l.queue + l.posted == l.sent;
  }

  // ---- the read side -------------------------------------------------------------------------

  datatype Parsed = Parsed(packets: seq<Packet>, rest: Bytes)

  /** The packets a byte stream contains, and the bytes of the one still arriving. */
  function Parse(s: Bytes): Parsed
    decreases |s|
  {
    if |s| < 8 || |s| < 8 + GetU32(s, 4) then Parsed([], s)
    else
      var n := 8 + GetU32(s, 4);
      var more := Parse(s[n..]);
      Parsed([Packet(GetU32(s, 0), s[8..n])] + more.packets, more.rest)
  }

  lemma ParseFirst(s: Bytes)
    requires |s| >= 8 && |s| >= 8 + GetU32(s, 4)
    ensures var n := 8 + GetU32(s, 4);
            Parse(s) == Parsed([Packet(GetU32(s, 0), s[8..n])] + Parse(s[n..]).packets, Parse(s[n..]).rest)
  {
  }

  /** The session after reading one chunk more: packets handed over so far and bytes held back. */
  function Feed(p: Parsed, chunk: Bytes): Parsed
  {
    var more := Parse(p.rest + chunk);
    Parsed(p.packets + more.packets, more.rest)
  }

  function FeedAll(p: Parsed, chunks: seq<Bytes>): Parsed
    decreases |chunks|
  {
    if chunks == [] then p else FeedAll(Feed(p, chunks[0]), chunks[1..])
  }

  lemma {:induction false} ParseSplit(a: Bytes, b: Bytes)
    ensures Parse(a + b) == Feed(Parse(a), b)
    decreases |a|
  {
    hide GetU32, Parse, Feed;
    if |a| < 8 || |a| < 8 + GetU32(a, 4) {
      FeedNothing(a, b);
    } else {
      var n := 8 + GetU32(a, 4);
      HeaderOfPrefix(a, b);
      ParseFirst(a);
      ParseFirst(a + b);
      assert (a + b)[n..] == a[n..] + b;
      assert (a + b)[8..n] == a[8..n];
      ParseSplit(a[n..], b);
      FeedAfterFirst(Packet(GetU32(a, 0), a[8..n]), Parse(a[n..]), b);
    }
  }

  lemma FeedNothing(a: Bytes, b: Bytes)
    requires |a| < 8 || |a| < 8 + GetU32(a, 4)
    ensures Feed(Parse(a), b) == Parse(a + b)
  {
    assert Parse(a) == Parsed([], a);
    assert [] + Parse(a + b).packets == Parse(a + b).packets;
  }

  lemma FeedAfterFirst(p: Packet, x: Parsed, b: Bytes)
    ensures Feed(Parsed([p] + x.packets, x.rest), b) == Parsed([p] + Feed(x, b).packets, Feed(x, b).rest)
  {
    hide Parse;
    Regroup([p], x.packets, Parse(x.rest + b).packets);
  }

  lemma HeaderOfPrefix(a: Bytes, b: Bytes)
    requires |a| >= 8
    ensures GetU32(a + b, 0) == GetU32(a, 0) && GetU32(a + b, 4) == GetU32(a, 4)
  {
    assert (a + b)[0..4] == a[0..4] && (a + b)[4..8] == a[4..8];
  }

  /** Chunking does not matter: the packets handed over depend only on the bytes received. */
  lemma {:induction false} FeedIsParse(done: Bytes, chunks: seq<Bytes>)
    ensures FeedAll(Parse(done), chunks) == Parse(done + Flat(chunks))
    decreases |chunks|
  {
    if chunks == [] {
      assert done + Flat(chunks) == done;
    } else {
      ParseSplit(done, chunks[0]);
      FeedIsParse(done + chunks[0], chunks[1..]);
      assert done + chunks[0] + Flat(chunks[1..]) == done + Flat(chunks);
    }
  }

  lemma FrameHeader(p: Packet, tail: Bytes)
    ensures GetU32(Frame(p) + tail, 0) == p.code
    ensures GetU32(Frame(p) + tail, 4) == |p.body| % U32_LIMIT
    ensures (Frame(p) + tail)[8..8 + |p.body|] == p.body && (Frame(p) + tail)[8 + |p.body|..] == tail
  {
    hide PutU32, GetU32;
    var s := Frame(p) + tail;
    assert s[0..4] == PutU32(p.code) && s[4..8] == PutU32(|p.body|);
    GetPutU32(p.code, s, 0);
    GetPutU32(|p.body|, s, 4);
  }

  lemma ParseFrame(p: Packet, tail: Bytes)
    requires |p.body| < U32_LIMIT
    ensures Parse(Frame(p) + tail) == Parsed([p] + Parse(tail).packets, Parse(tail).rest)
  {
    hide PutU32, GetU32;
    FrameHeader(p, tail);
    ParseFirst(Frame(p) + tail);
  }

  lemma StreamOfNone()
    ensures Stream([]) == []
  {
  }

  lemma FramableTail(ps: seq<Packet>)
    requires Framable(ps) && ps != []
    ensures |ps[0].body| < U32_LIMIT && Framable(ps[1..])
  {
  }

  lemma StreamFirst(ps: seq<Packet>)
    requires ps != []
    ensures Stream(ps) == Frame(ps[0]) + Stream(ps[1..])
  {
    assert Frames(ps)[1..] == Frames(ps[1..]);
  }

  /** The reader inverts the writer: the frames of any packets come out as those packets. */
  lemma {:induction false} ParseStream(ps: seq<Packet>, tail: Bytes)
    requires Framable(ps)
    ensures Parse(Stream(ps) + tail) == Parsed(ps + Parse(tail).packets, Parse(tail).rest)
    decreases |ps|
  {
    hide *;
    if ps == [] {
      assert Stream(ps) + tail == tail by { StreamOfNone(); }
      assert ps + Parse(tail).packets == Parse(tail).packets;
    } else {
      var rest := Stream(ps[1..]) + tail;
      StreamFirst(ps);
      assert Stream(ps) + tail == Frame(ps[0]) + rest;
      FramableTail(ps);
      ParseFrame(ps[0], rest);
      ParseStream(ps[1..], tail);
      assert [ps[0]] + (ps[1..] + Parse(tail).packets) == ps + Parse(tail).packets;
    }
  }

  /** The exact condition: a frame comes back as its packet if and only if the body is shorter than 2^32 bytes. */
  lemma FrameComesBackExactly(p: Packet)
    ensures Parse(Frame(p)) == Parsed([p], []) <==> |p.body| < U32_LIMIT
  {
    assert Frame(p) + [] == Frame(p);
    if |p.body| < U32_LIMIT {
      ParseFrame(p, []);
    } else {
      FrameHeader(p, []);
    }
  }

  /** How many whole frames the first n bytes of the stream contain. */
  function WholeIn(ps: seq<Packet>, n: nat): (k: nat)
    ensures k <= |ps|
  {
    if ps == [] || n < 8 + |ps[0].body| then 0 else 1 + WholeIn(ps[1..], n - 8 - |ps[0].body|)
  }

  lemma {:induction false} WholeInIsLargest(ps: seq<Packet>, n: nat)
    ensures var k := WholeIn(ps, n);
            && |Stream(ps[..k])| <= n
            && (k < |ps| ==> n < |Stream(ps[..k + 1])|)
    decreases |ps|
  {
    var k := WholeIn(ps, n);
    if ps != [] {
      if k > 0 {
        WholeInIsLargest(ps[1..], n - 8 - |ps[0].body|);
        assert ps[..k][1..] == ps[1..][..k - 1];
        if k < |ps| {
          assert ps[..k + 1][1..] == ps[1..][..k];
        }
      } else {
        assert ps[..1][1..] == [];
      }
    }
  }

  /** A stream cut at any byte yields exactly the packets whose frames are complete. */
  lemma {:induction false} CutStream(ps: seq<Packet>, n: nat)
    requires Framable(ps) && n <= |Stream(ps)|
    ensures Parse(Stream(ps)[..n]).packets == ps[..WholeIn(ps, n)]
    decreases |ps|
  {
    hide PutU32, GetU32;
    if ps != [] {
      var p, rest := ps[0], Stream(ps[1..]);
      var m := 8 + |p.body|;
      StreamFirst(ps);
      FrameHeader(p, rest);
      if n < m {
        var s := Stream(ps)[..n];
        if n >= 8 {
          assert s + Stream(ps)[n..] == Stream(ps);
          HeaderOfPrefix(s, Stream(ps)[n..]);
        }
      } else {
        CutStream(ps[1..], n - m);
        var tail := rest[..n - m];
        assert Stream(ps)[..n] == Frame(p) + tail;
        ParseFrame(p, tail);
        assert ps[..WholeIn(ps, n)] == [p] + ps[1..][..WholeIn(ps[1..], n - m)];
      }
    }
  }

  /** The abstract channel: however posts, writes, failures and chunk boundaries interleave, the packets the
      peer has been handed are the first of the packets posted, and all of them once everything arrived. */
  lemma FifoChannel(es: seq<LinkEvent>, ps: seq<Packet>, chunks: seq<Bytes>)
    requires RunLink(es).Some? && Posts(es) == Frames(ps) && Framable(ps)
    requires Flat(chunks) <= RunLink(es).value.wire
    ensures FeedAll(Parsed([], []), chunks).packets == ps[..WholeIn(ps, |Flat(chunks)|)]
    ensures RunLink(es).value.queue == [] && RunLink(es).value.posted == [] && Flat(chunks) == RunLink(es).value.wire
            ==> FeedAll(Parsed([], []), chunks).packets == ps
  {
    LinkRun(es);
    var l := RunLink(es).value;
    var arrived := Flat(chunks);
    assert arrived == Stream(ps)[..|arrived|];
    assert Parse([]) == Parsed([], []);
    FeedIsParse([], chunks);
    assert [] + arrived == arrived;
    CutStream(ps, |arrived|);
    if l.queue == [] && l.posted == [] && arrived == l.wire {
      assert l.sent + l.queue + l.posted == l.sent;
      ParseStream(ps, []);
      assert Stream(ps) + [] == Stream(ps);
    }
  }
}

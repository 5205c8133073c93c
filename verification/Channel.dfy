/**
 One direction of a connection: the writer's link, the bytes the other side's reader has received, and how many
 packets that reader has handed over.
 */
module Channels {
  import opened Wire
  import opened Protocol
  import opened Network

  /** posts records the packets send_packet was called with; only the link's bytes travel. */
  datatype Channel = Channel(posts: seq<Packet>, link: Link, received: Bytes, taken: nat)

  const NEW_CHANNEL := Channel([], IDLE_LINK, [], 0)

  /** send_packet, once for each packet. */
  function Send(ch: Channel, ps: seq<Packet>): Channel
    decreases |ps|
  {
    if ps == [] then ch
    else Send(ch.(posts := ch.posts + [ps[0]], link := Apply(ch.link, Post(Frame(ps[0])))), ps[1..])
  }

  /** The executor or the socket moves the writer on. */
  function Move(ch: Channel, e: LinkEvent): Option<Channel>
  {
    if !e.Post? && Enabled(ch.link, e) then Some(ch.(link := Apply(ch.link, e))) else None
  }

  /** More of the bytes on the wire reach the reader. */
  function Arrive(ch: Channel, count: nat): Option<Channel>
  {
    var n := |ch.received| + count;
    if n <= |ch.link.wire| then Some(ch.(received := ch.link.wire[..n])) else None
  }

  /** The packet the reader hands to handle_packet next. By FeedIsParse it does not matter in which chunks the bytes
      came, and NetworkSession.OnReceive hands over these packets and no others. */
  function Next(ch: Channel): Option<Packet>
  {
    var ps := Parse(ch.received).packets;
    if ch.taken < |ps| then Some(ps[ch.taken]) else None
  }

  function HandOn(ch: Channel): Channel
  {
    ch.(taken := ch.taken + 1)
  }

  predicate ChannelInv(ch: Channel)
  {
    && LinkInv(ch.link)
    && ch.link.sent + ch.link.queue + ch.link.posted == Frames(ch.posts)
    && ch.received <= ch.link.wire
    && (Framable(ch.posts) ==> ch.taken <= |ch.posts|)
  }

  /** Every packet handed over so far had a body shorter than 2^32 bytes. */
  predicate InStep(ch: Channel)
  {
    ch.taken <= |ch.posts| && Framable(ch.posts[..ch.taken])
  }

  lemma {:induction false} FramesAppend(ps: seq<Packet>, qs: seq<Packet>)
    ensures Frames(ps + qs) == Frames(ps) + Frames(qs)
  {
    if ps == [] {
      assert ps + qs == qs;
    } else {
      assert (ps + qs)[1..] == ps[1..] + qs;
      FramesAppend(ps[1..], qs);
    }
  }

  lemma StreamSplit(ps: seq<Packet>, m: nat)
    requires m <= |ps|
    ensures Stream(ps) == Stream(ps[..m]) + Stream(ps[m..])
  {
    assert ps == ps[..m] + ps[m..];
    FramesAppend(ps[..m], ps[m..]);
    FlatAppend(Frames(ps[..m]), Frames(ps[m..]));
  }

  /** What the reader has got is a prefix of the frames of the packets posted. */
  lemma ReceivedPrefix(ch: Channel)
    requires ChannelInv(ch)
    ensures ch.received <= Stream(ch.posts)
  {
    hide Flat, Frames;
    WirePrefix(ch.link);
  }

  // ---- each step keeps the invariant ---------------------------------------------------------

  lemma {:induction false} SendKeeps(ch: Channel, ps: seq<Packet>)
    requires ChannelInv(ch)
    ensures var ch' := Send(ch, ps);
            && ChannelInv(ch') && ch'.posts == ch.posts + ps
            && ch'.received == ch.received && ch'.taken == ch.taken
            && (InStep(ch') ==> InStep(ch))
    decreases |ps|
  {
    hide ChannelInv, Apply, Frame;
    if ps == [] {
      assert ch.posts + ps == ch.posts;
    } else {
      var ch1 := ch.(posts := ch.posts + [ps[0]], link := Apply(ch.link, Post(Frame(ps[0]))));
      PostKeeps(ch, ps[0]);
      SendKeeps(ch1, ps[1..]);
      assert ch.posts + [ps[0]] + ps[1..] == ch.posts + ps;
    }
  }

  lemma PostKeeps(ch: Channel, p: Packet)
    requires ChannelInv(ch)
    ensures var ch' := ch.(posts := ch.posts + [p], link := Apply(ch.link, Post(Frame(p))));
            ChannelInv(ch') && (InStep(ch') ==> InStep(ch))
  {
    hide Frame, Framable, LinkInv, Flat;
    LinkStep(ch.link, Post(Frame(p)));
    FramesAppend(ch.posts, [p]);
    assert Frames([p]) == [Frame(p)];
    if Framable(ch.posts + [p]) {
      FramablePrefix(ch.posts, [p]);
    }
    InStepBefore(ch, [p]);
  }

  lemma FramablePrefix(ps: seq<Packet>, qs: seq<Packet>)
    requires Framable(ps + qs)
    ensures Framable(ps)
  {
    forall i | 0 <= i < |ps| ensures |ps[i].body| < U32_LIMIT {
      assert (ps + qs)[i] == ps[i];
    }
  }

  lemma InStepBefore(ch: Channel, ps: seq<Packet>)
    requires Framable(ch.posts) ==> ch.taken <= |ch.posts|
    ensures InStep(ch.(posts := ch.posts + ps)) ==> InStep(ch)
  {
    var n, all := |ch.posts|, ch.posts + ps;
    if InStep(ch.(posts := all)) {
      var k := if ch.taken <= n then ch.taken else n;
      assert all[..ch.taken] == ch.posts[..k] + all[k..ch.taken];
      FramablePrefix(ch.posts[..k], all[k..ch.taken]);
      assert ch.posts[..n] == ch.posts;
    }
  }

  lemma MoveKeeps(ch: Channel, e: LinkEvent)
    requires ChannelInv(ch) && Move(ch, e).Some?
    ensures var ch' := Move(ch, e).value;
            ChannelInv(ch') && ch'.posts == ch.posts && ch'.received == ch.received && ch'.taken == ch.taken
  {
    hide Frames, Flat;
    LinkStep(ch.link, e);
    assert ch.link.wire <= Apply(ch.link, e).wire;
  }

  lemma ArriveKeeps(ch: Channel, count: nat)
    requires ChannelInv(ch) && Arrive(ch, count).Some?
    ensures var ch' := Arrive(ch, count).value;
            ChannelInv(ch') && ch'.posts == ch.posts && ch'.taken == ch.taken && ch.received <= ch'.received
  {
  }

  /** What the reader hands over next, while everything handed over so far was short enough: the next packet posted,
      if and only if its body is shorter than 2^32 bytes. A longer one is cut, and its tail is read as headers. */
  lemma NextExactly(ch: Channel)
    requires ChannelInv(ch) && InStep(ch) && Next(ch).Some?
    ensures ch.taken < |ch.posts|
    ensures Next(ch).value == ch.posts[ch.taken] <==> |ch.posts[ch.taken].body| < U32_LIMIT
  {
    hide Stream, Parse, ChannelInv;
    var m, s := ch.taken, ch.received;
    var before, after := ch.posts[..m], ch.posts[m..];
    ReceivedPrefix(ch);
    StreamSplit(ch.posts, m);
    if |s| < |Stream(before)| {
      assert s == Stream(before)[..|s|];
      CutStream(before, |s|);
      assert false;
    }
    var tail := s[|Stream(before)|..];
    assert s == Stream(before) + tail && tail <= Stream(after);
    ParseStream(before, tail);
    assert Next(ch).value == Parse(tail).packets[0];
    if after == [] {
      StreamOfNone();
      NothingToParse();
      assert false;
    }
    FirstOfTail(after, tail);
    assert after[0] == ch.posts[m];
  }

  lemma NothingToParse()
    ensures Parse([]).packets == []
  {
  }

  lemma FirstOfTail(ps: seq<Packet>, tail: Bytes)
    requires ps != [] && tail <= Stream(ps) && Parse(tail).packets != []
    ensures Parse(tail).packets[0] == ps[0] <==> |ps[0].body| < U32_LIMIT
  {
    hide Stream, PutU32, GetU32;
    var p := ps[0];
    StreamFirst(ps);
    var f := Frame(p);
    if |p.body| < U32_LIMIT {
      if |tail| < |f| {
        assert tail == f[..|tail|];
        OneFrame(p);
        CutStream([p], |tail|);
        assert false;
      }
      var rest := tail[|f|..];
      assert tail == f + rest;
      ParseFrame(p, rest);
    } else {
      assert |Parse(tail).packets[0].body| == GetU32(tail, 4);
    }
  }

  lemma OneFrame(p: Packet)
    ensures Stream([p]) == Frame(p)
  {
    StreamFirst([p]);
    assert [p][1..] == [];
    StreamOfNone();
  }

  /** Handing over the next packet keeps the invariant; being in step afterwards means having been so before. */
  lemma HandOnKeeps(ch: Channel)
    requires ChannelInv(ch) && Next(ch).Some?
    ensures ChannelInv(HandOn(ch))
    ensures InStep(HandOn(ch)) ==>
              InStep(ch) && ch.taken < |ch.posts| && Next(ch).value == ch.posts[ch.taken]
  {
    hide LinkInv;
    if InStep(HandOn(ch)) {
      assert ch.posts[..ch.taken + 1] == ch.posts[..ch.taken] + [ch.posts[ch.taken]];
      FramablePrefix(ch.posts[..ch.taken], [ch.posts[ch.taken]]);
      assert ch.posts[..ch.taken + 1][ch.taken] == ch.posts[ch.taken];
      NextExactly(ch);
    }
    if Framable(ch.posts) {
      assert ch.posts == ch.posts[..ch.taken] + ch.posts[ch.taken..];
      FramablePrefix(ch.posts[..ch.taken], ch.posts[ch.taken..]);
      NextExactly(ch);
    }
  }

  /** Nothing is held back: once the writer has drained and every byte has arrived, a packet is there to hand over as
      long as not all have been. */
  lemma AllArrive(ch: Channel)
    requires ChannelInv(ch) && Framable(ch.posts)
    requires ch.link.queue == [] && ch.link.posted == [] && ch.received == ch.link.wire
    ensures Next(ch).Some? <==> ch.taken < |ch.posts|
  {
    hide Stream, Parse, Frames, Flat;
    assert ch.link.sent + ch.link.queue + ch.link.posted == ch.link.sent;
    DrainedWire(ch);
    assert ch.received + [] == ch.received;
    ParseStream(ch.posts, []);
    NothingToParse();
  }

  lemma DrainedWire(ch: Channel)
    requires ChannelInv(ch) && ch.link.queue == [] && ch.link.posted == []
    ensures ch.link.wire == Stream(ch.posts)
  {
    assert ch.link.sent + ch.link.queue + ch.link.posted == ch.link.sent;
  }
}

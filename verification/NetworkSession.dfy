/** The session object whose callbacks mutate the write queue and the header buffer. */
module Sessions {
  import opened Wire
  import opened Protocol
  import opened Network

  class NetworkSession {
    // What the executor and the socket hold for this session.
    var posted: seq<Bytes>
    var writing: bool
    var writeFailed: bool
    var emitted: nat
    ghost var sent: seq<Bytes>
    ghost var wire: Bytes
    // The source's own fields.
    var writeQueue: seq<Bytes>
    const headerBuffer: array<Byte>
    // The asynchronous read in progress.
    var headerFill: nat
    var readingBody: bool
    var bodyCode: U32
    var bodyLength: nat
    var bodyBuffer: Bytes

    ghost function Outgoing(): Link
      reads this
    {
      Link(posted, writeQueue, writing, writeFailed, emitted, sent, wire)
    }

    /** Bytes received that do not make a whole packet yet. */
    ghost function Unread(): Bytes
      requires headerFill <= headerBuffer.Length
      reads this, headerBuffer
    {
      headerBuffer[..headerFill] + bodyBuffer
    }

    /** The read in progress may have just filled its buffer. */
    ghost predicate Reading()
      reads this, headerBuffer
    {
      && LinkInv(Outgoing())
      && headerBuffer.Length == 8
      && headerFill <= 8
      && (readingBody <==> headerFill == 8)
      && (!readingBody ==> bodyBuffer == [])
      && (readingBody ==>
            && bodyCode == GetU32(headerBuffer[..], 0)
            && bodyLength == GetU32(headerBuffer[..], 4)
            && |bodyBuffer| <= bodyLength)
    }

    predicate BodyFull()
      reads this
    {
      readingBody && |bodyBuffer| == bodyLength
    }

    ghost predicate Valid()
      reads this, headerBuffer
    {
      Reading() && !BodyFull()
    }

    constructor ()
      ensures Valid() && fresh(headerBuffer)
      ensures Outgoing() == IDLE_LINK && Unread() == []
    {
      posted, writeQueue, writing, writeFailed, emitted, sent, wire := [], [], false, false, 0, [], [];
      headerBuffer := new Byte[8](_ => 0);
      headerFill, readingBody, bodyCode, bodyLength, bodyBuffer := 0, false, 0, 0, [];
      new;
      assert Flat([]) == [];
    }

    /** Builds the frame and posts the lambda that will queue it. */
    method SendPacket(code: U32, body: Bytes)
      requires Valid()
      modifies this
      ensures Valid() && Unread() == old(Unread())
      ensures Outgoing() == Apply(old(Outgoing()), Post(Frame(Packet(code, body))))
    {
      var fullPacket := PutU32(code);
      fullPacket := fullPacket + PutU32(|body|);
      fullPacket := fullPacket + body;
      posted := posted + [fullPacket];
    }

    /** The posted lambda: queue the frame, and start writing if nothing was queued before it. */
    method RunPostedLambda()
      requires Valid() && posted != []
      modifies this
      ensures Valid() && Unread() == old(Unread())
      ensures Outgoing() == Apply(old(Outgoing()), RunPosted)
    {
      LinkStep(Outgoing(), RunPosted);
      var p := posted[0];
      posted := posted[1..];
      var writeInProgress := writeQueue != [];
      writeQueue := writeQueue + [p];
      if !writeInProgress {
        DoWrite();
      }
    }

    /** Starts writing the front of the queue; called only while no write is outstanding. */
    method DoWrite()
      requires writeQueue != [] && !writing
      modifies this`writing, this`emitted
      ensures writing && emitted == 0
    {
      writing := true;
      emitted := 0;
    }

    /** The socket takes some more bytes of the buffer being written. */
    method Progress(count: nat)
      requires Valid() && Enabled(Outgoing(), Emit(count))
      modifies this
      ensures Valid() && Unread() == old(Unread())
      ensures Outgoing() == Apply(old(Outgoing()), Emit(count))
    {
      LinkStep(Outgoing(), Emit(count));
      wire := wire + writeQueue[0][emitted..emitted + count];
      emitted := emitted + count;
    }

    /** The completion handler of async_write. */
    method OnWritten(error: bool)
      requires Valid() && Enabled(Outgoing(), if error then Fail else Complete)
      modifies this
      ensures Valid() && Unread() == old(Unread())
      ensures Outgoing() == Apply(old(Outgoing()), if error then Fail else Complete)
    {
      LinkStep(Outgoing(), if error then Fail else Complete);
      writing := false;
      if !error {
        sent := sent + [writeQueue[0]];
        writeQueue := writeQueue[1..];
        emitted := 0;
        if writeQueue != [] {
          DoWrite();
        }
      } else {
        writeFailed := true;
      }
    }

    /** One byte of read_header's exact eight; the eighth starts the body read. */
    method ReadHeaderByte(b: Byte)
      requires Valid() && !readingBody
      modifies this, headerBuffer
      ensures Reading() && Outgoing() == old(Outgoing())
      ensures Unread() == old(Unread()) + [b]
    {
      headerBuffer[headerFill] := b;
      headerFill := headerFill + 1;
      if headerFill == 8 {
        ParseHeader();
      }
    }

    method ParseHeader()
      requires headerBuffer.Length == 8
      modifies this`bodyCode, this`bodyLength, this`readingBody
      ensures readingBody
      ensures bodyCode == GetU32(headerBuffer[..], 0) && bodyLength == GetU32(headerBuffer[..], 4)
    {
      bodyCode := GetU32(headerBuffer[..], 0);
      bodyLength := GetU32(headerBuffer[..], 4);
      readingBody := true;
    }

    method ReadBodyBytes(part: Bytes)
      requires Valid() && readingBody && |bodyBuffer| + |part| <= bodyLength
      modifies this`bodyBuffer
      ensures Reading() && Outgoing() == old(Outgoing())
      ensures Unread() == old(Unread()) + part
    {
      bodyBuffer := bodyBuffer + part;
    }

    /** The body is complete: handle_packet gets it and read_header starts again. */
    method HandOver(ghost tail: Bytes) returns (p: Packet)
      requires Reading() && BodyFull()
      modifies this
      ensures Valid() && Outgoing() == old(Outgoing())
      ensures Unread() == []
      ensures Parse(old(Unread()) + tail) == Then([p], Parse(tail))
    {
      assert headerBuffer[..8] == headerBuffer[..];
      OnePacket(headerBuffer[..], bodyBuffer, tail);
      p := Packet(bodyCode, bodyBuffer);
      readingBody, headerFill, bodyBuffer := false, 0, [];
    }

    /** The read loop over one chunk of arriving bytes. */
    method OnReceive(chunk: Bytes) returns (handed: seq<Packet>)
      requires Valid()
      modifies this, headerBuffer
      ensures Valid() && Outgoing() == old(Outgoing())
      ensures Parse(old(Unread()) + chunk) == Parsed(handed, Unread())
    {
      hide Parse, GetU32, LinkInv;
      handed := [];
      var at := 0;
      ghost var all := Unread() + chunk;
      assert chunk[0..] == chunk;
      assert Parse(all) == Then(handed, Parse(all)) by { ThenNothing(Parse(all)); }
      while at < |chunk|
        invariant at <= |chunk|
        invariant Valid() && Outgoing() == old(Outgoing())
        invariant Parse(all) == Then(handed, Parse(Unread() + chunk[at..]))
      {
        ghost var before := Unread() + chunk[at..];
        if readingBody {
          var n := if bodyLength - |bodyBuffer| <= |chunk| - at then bodyLength - |bodyBuffer| else |chunk| - at;
          assert chunk[at..] == chunk[at..at + n] + chunk[at + n..];
          ReadBodyBytes(chunk[at..at + n]);
          at := at + n;
        } else {
          assert chunk[at..] == [chunk[at]] + chunk[at + 1..];
          ReadHeaderByte(chunk[at]);
          at := at + 1;
        }
        assert Unread() + chunk[at..] == before;
        if BodyFull() {
          var p := HandOver(chunk[at..]);
          ThenThen(handed, p, Parse(chunk[at..]));
          handed := handed + [p];
          assert Unread() + chunk[at..] == chunk[at..];
        }
      }
      assert Unread() + chunk[at..] == Unread();
      IncompleteParse();
    }

    lemma IncompleteParse()
      requires Valid()
      ensures Parse(Unread()) == Parsed([], Unread())
    {
      if readingBody {
        assert headerBuffer[..8] == headerBuffer[..];
        HeaderOfPrefix(headerBuffer[..], bodyBuffer);
      }
    }
  }

  ghost function Then(handed: seq<Packet>, p: Parsed): Parsed
  {
    Parsed(handed + p.packets, p.rest)
  }

  lemma ThenNothing(p: Parsed)
    ensures Then([], p) == p
  {
    assert [] + p.packets == p.packets;
  }

  lemma ThenThen(handed: seq<Packet>, p: Packet, more: Parsed)
    ensures Then(handed, Then([p], more)) == Then(handed + [p], more)
  {
    assert handed + ([p] + more.packets) == handed + [p] + more.packets;
  }

  lemma OnePacket(header: Bytes, body: Bytes, tail: Bytes)
    requires |header| == 8 && |body| == GetU32(header, 4)
    ensures Parse(header + body + tail) == Then([Packet(GetU32(header, 0), body)], Parse(tail))
  {
    hide GetU32;
    var s := header + body + tail;
    assert s == header + (body + tail);
    HeaderOfPrefix(header, body + tail);
    ParseFirst(s);
    assert s[8..8 + |body|] == body && s[8 + |body|..] == tail;
  }
}

/** The PSC object: its fields, changed in place as the source changes them. Each method is
    proved to do what PscSession says of it. Blocks are held in the two maps under their
    code, which stands for the Block pointer; session input and output are byte queues. */
module PscDriver {
  import opened Framing
  import opened Chunks
  import opened PscSession
  import opened DBuffers
  import Dec = PscDecoder

  class Psc {
    var connected: bool
    var session: Option<Session>
    var timerActive: bool
    var conncount: nat
    const maxSend: int

    // RX message decoding
    var haveHead: bool
    var header: u16
    var bodylen: u32
    var bodyblock: Option<u16>
    var expected: nat
    var input: seq<byte>
    var recvBlocks: map<u16, Dec.Block>
    var ukncount: nat

    var sendBlocks: map<u16, SendBlock>
    var sendbuf: EvBuffer<byte>

    ghost var delivered: seq<Dec.Delivery>
    ghost var hist: History

    ghost function Decoder(): Dec.Decoder
      reads this
    {
      Dec.Decoder(haveHead, header, bodylen, bodyblock, expected, input, false,
                  Dec.Sink(recvBlocks, ukncount, delivered))
    }

    ghost function View(): State
      reads this, sendbuf
    {
      State(connected, session, timerActive, conncount, Decoder(), sendBlocks, sendbuf.data, maxSend, hist)
    }

    constructor (recvBlocks: map<u16, Dec.Block>, maxSend: int)
      ensures fresh(sendbuf) && View() == Initial(Dec.Sink(recvBlocks, 0, []), maxSend)
    {
      connected, session, timerActive, conncount := false, None, false, 0;
      haveHead, header, bodylen, bodyblock, expected, input := false, 0, 0, None, HEADER_SIZE, [];
      this.recvBlocks, ukncount, sendBlocks, this.maxSend := recvBlocks, 0, map[], maxSend;
      sendbuf := new EvBuffer();
      delivered := [];
      hist := History(false, false, [], Dec.Sink(recvBlocks, 0, []), [], [], false, false, {}, {});
    }

    method Connect(o: ConnectOutcome)
      requires ConnectAsserts(View())
      modifies this
      ensures sendbuf == old(sendbuf) && View() == PscSession.Connect(old(View()), o)
    {
      assert !connected && session.None? && !timerActive;
      hist := hist.(started := true, dead := o.NoMemory?, rx := [], sink0 := Decoder().sink,
                    flushed := [], straySent := false);
      ResetDecoder();
      if o.NoMemory? {
        return;
      }
      session := Some(Session(expected, MIN_MAX_BUF_SIZE, []));
      if o.NotInitiated? {
        session, timerActive := None, true;
      }
    }

    method ResetDecoder()
      modifies this`haveHead, this`header, this`bodylen, this`bodyblock, this`expected, this`input
      ensures Decoder() == Dec.Fresh(old(Decoder().sink))
    {
      haveHead, header, bodylen, bodyblock, expected := false, 0, 0, None, HEADER_SIZE;
      input := [];
    }

    method StartReconnect()
      requires StartReconnectAsserts(View())
      modifies this
      ensures sendbuf == old(sendbuf) && View() == PscSession.StartReconnect(old(View()))
    {
      assert session.Some? && !timerActive;
      session, input := None, [];
      connected, timerActive := false, true;
    }

    method Reconnect(o: ConnectOutcome)
      requires ReconnectAsserts(View())
      modifies this
      ensures sendbuf == old(sendbuf) && View() == PscSession.Reconnect(old(View()), o)
      ensures !o.NoMemory? ==> session.Some? || timerActive
    {
      assert !connected && session.None?;
      timerActive := false;
      Connect(o);
    }

    method EventCb(e: SessionEvent)
      requires e.Failed? ==> StartReconnectAsserts(View())
      modifies this
      ensures sendbuf == old(sendbuf) && View() == PscSession.EventCb(old(View()), e)
    {
      match e
      case Connected => connected, conncount := true, conncount + 1;
      case Failed => StartReconnect();
      case Other =>
    }

    method ForceReconnect()
      requires connected ==> StartReconnectAsserts(View())
      modifies this
      ensures sendbuf == old(sendbuf) && View() == PscSession.ForceReconnect(old(View()))
    {
      if connected {
        StartReconnect();
      }
    }

    method RecvData(bytes: seq<byte>)
      requires RecvAsserts(View()) && StartReconnectAsserts(View()) && Dec.Inv(Decoder())
      modifies this
      ensures sendbuf == old(sendbuf) && View() == PscSession.RecvData(old(View()), bytes)
    {
      hide Dec.Drain;
      assert connected && session.Some?;
      input := input + bytes;
      hist := hist.(rx := hist.rx + bytes);
      var bad := DecodeAll();
      if bad {
        StartReconnect();
        return;
      }
      var high := if expected >= MIN_MAX_BUF_SIZE then expected + 1 else MIN_MAX_BUF_SIZE;
      session := Some(session.value.(low := expected, high := high));
    }

    /** The decoding loop; bad says that it met a bad header, and the session must go. */
    method DecodeAll() returns (bad: bool)
      requires Dec.Inv(Decoder())
      modifies this`input, this`header, this`bodylen, this`bodyblock, this`recvBlocks, this`ukncount,
               this`haveHead, this`expected, this`delivered
      ensures var d := Dec.Drain(old(Decoder()));
              bad == d.failed && Decoder() == (if bad then d.(buf := input, failed := false) else d)
    {
      hide Dec.Drain, Dec.StepHeader, Dec.StepBody, Dec.Step;
      while |input| >= expected
        invariant Dec.Inv(Decoder())
        invariant Dec.Drain(Decoder()) == Dec.Drain(old(Decoder()))
        decreases |input|
      {
        ghost var nbytes, d := |input|, Decoder();
        Dec.DrainStep(d);
        if !haveHead {
          assert expected == HEADER_SIZE;
          var hbuf := input[..HEADER_SIZE];
          input := input[HEADER_SIZE..];
          if !HeaderOk(hbuf) {
            Dec.DrainBadHeader(d);
            return true;
          }
          assert hbuf + input == d.buf;
          DecodeHeader(hbuf);
        } else {
          DecodeBody();
        }
        assert Decoder() == Dec.Step(d);
        assert |input| < nbytes;
      }
      Dec.DrainDone(Decoder());
      return false;
    }

    method DecodeHeader(hbuf: seq<byte>)
      requires !haveHead && |hbuf| == HEADER_SIZE && HeaderOk(hbuf)
      requires Dec.Inv(Decoder().(buf := hbuf + input))
      modifies this`header, this`bodylen, this`bodyblock, this`recvBlocks, this`ukncount, this`haveHead, this`expected
      ensures Decoder() == Dec.StepHeader(old(Decoder()).(buf := hbuf + input))
    {
      assert (hbuf + input)[..HEADER_SIZE] == hbuf && (hbuf + input)[HEADER_SIZE..] == input;
      header, bodylen := HeaderId(hbuf), HeaderLen(hbuf);
      if header in recvBlocks {
        bodyblock := Some(header);
        var b := recvBlocks[header];
        recvBlocks := recvBlocks[header := b.(count := b.count + 1)];
      } else {
        bodyblock := None;
        ukncount := ukncount + 1;
      }
      if bodylen != 0 {
        haveHead, expected := true, bodylen;
      } else {
        haveHead, bodyblock, expected := false, None, HEADER_SIZE;
      }
    }

    method DecodeBody()
      requires haveHead && Dec.Inv(Decoder()) && expected <= |input|
      modifies this`input, this`bodyblock, this`recvBlocks, this`haveHead, this`expected, this`delivered
      ensures Decoder() == Dec.StepBody(old(Decoder()))
    {
      var body := input[..bodylen];
      input := input[bodylen..];
      if bodyblock.Some? {
        var id := bodyblock.value;
        recvBlocks := recvBlocks[id := recvBlocks[id].(data := body)];
        delivered := delivered + [Dec.Delivery(id, body)];
      }
      haveHead, bodyblock, expected := false, None, HEADER_SIZE;
    }

    method GetSend(id: u16)
      modifies this`sendBlocks
      ensures sendbuf == old(sendbuf) && View() == PscSession.GetSend(old(View()), id)
    {
      if id !in sendBlocks {
        sendBlocks := sendBlocks[id := SendBlock(false, 0)];
      }
    }

    method QueueHeader(id: u16, buflen: u32, expandOk: bool) returns (r: SendResult)
      requires id in sendBlocks
      modifies sendbuf
      ensures r == QueueCheck(old(View()), id, expandOk)
      ensures sendbuf.data == if r == Ok && connected then old(sendbuf.data) + Header(id, buflen) else old(sendbuf.data)
    {
      if !connected {
        return Ok;
      }
      if sendBlocks[id].queued {
        return AlreadyQueued;
      }
      if maxSend > 0 && |sendbuf.data| >= maxSend {
        return WouldExceed;
      }
      if !expandOk {
        return OutOfMemory;
      }
      sendbuf.Add(Header(id, buflen));
      return Ok;
    }

    /** queueSend(Block*, const void*, epicsUInt32) */
    method QueueBytes(id: u16, body: seq<byte>, expandOk: bool) returns (r: SendResult)
      requires id in sendBlocks && |body| < 0x1_0000_0000
      modifies this, sendbuf
      ensures sendbuf == old(sendbuf) && r == QueueCheck(old(View()), id, expandOk)
      ensures View() == PscSession.QueueSend(old(View()), id, body, expandOk)
    {
      hide Encode, Header;
      r := QueueHeader(id, |body|, expandOk);
      if r == Ok {
        sendbuf.Add(body);
        MarkQueued(id, body);
      }
      QueueAppends(old(sendbuf.data), id, body);
    }

    /** queueSend(Block*, const dbuffer&): the body is added stride by stride. */
    method QueueBuffer(id: u16, buf: DBuffer<byte>, expandOk: bool) returns (r: SendResult)
      requires id in sendBlocks && buf.Valid()
      modifies this, sendbuf
      ensures sendbuf == old(sendbuf) && r == QueueCheck(old(View()), id, expandOk)
      ensures View() == PscSession.QueueSend(old(View()), id, old(buf.View()), expandOk)
    {
      hide Encode, Header;
      ghost var body := buf.View();
      r := QueueHeader(id, Low32(buf.Size()), expandOk);
      if r == Ok {
        buf.CopyOutAll(sendbuf);
        MarkQueued(id, body);
      }
      QueueAppends(old(sendbuf.data), id, body);
    }

    /** queueSend(epicsUInt16, ...): finds or makes the block first, even when then refused. */
    method QueueById(id: u16, body: seq<byte>, expandOk: bool) returns (r: SendResult)
      requires |body| < 0x1_0000_0000
      modifies this, sendbuf
      ensures sendbuf == old(sendbuf)
      ensures r == QueueCheck(PscSession.GetSend(old(View()), id), id, expandOk)
      ensures View() == PscSession.QueueSend(PscSession.GetSend(old(View()), id), id, body, expandOk)
    {
      GetSend(id);
      r := QueueBytes(id, body, expandOk);
    }

    method MarkQueued(id: u16, ghost body: seq<byte>)
      requires id in sendBlocks
      modifies this`sendBlocks, this`hist
      ensures sendBlocks == old(sendBlocks)[id := SendBlock(true, old(sendBlocks)[id].count + 1)]
      ensures var f := Frame(id, body);
              var h := old(hist).(inQueue := old(hist).inQueue + {id});
              hist == if connected && Fits(f) then h.(waiting := h.waiting + [f])
                      else h.(strayQueued := h.strayQueued || body != [])
    {
      sendBlocks := sendBlocks[id := SendBlock(true, sendBlocks[id].count + 1)];
      hist := hist.(inQueue := hist.inQueue + {id});
      ghost var f := Frame(id, body);
      if connected && Fits(f) {
        hist := hist.(waiting := hist.waiting + [f]);
      } else {
        hist := hist.(strayQueued := hist.strayQueued || body != []);
      }
    }

    lemma QueueAppends(b: seq<byte>, id: u16, body: seq<byte>)
      ensures b + Header(id, Low32(|body|)) + body == b + Encode(Frame(id, body))
    {
    }

    method FlushSend(backlog: nat, moveOk: bool) returns (r: SendResult)
      requires connected ==> session.Some?
      modifies this, sendbuf
      ensures sendbuf == old(sendbuf) && r == FlushCheck(old(View()), backlog, moveOk)
      ensures View() == Flush(old(View()), backlog, moveOk)
    {
      if !connected {
        return Ok;
      }
      if maxSend > 0 && backlog >= maxSend {
        return WouldExceed;
      }
      if !moveOk {
        sendbuf.Remove(|sendbuf.data|);
        hist := hist.(waiting := [], strayQueued := false, inQueue := {}, lost := hist.lost + hist.inQueue);
        return MoveFailed;
      }
      session := Some(session.value.(tx := session.value.tx + sendbuf.data));
      sendbuf.Remove(|sendbuf.data|);
      hist := hist.(waiting := [], flushed := hist.flushed + hist.waiting,
                    strayQueued := false, straySent := hist.straySent || hist.strayQueued,
                    inQueue := {}, lost := {});
      sendBlocks := ClearQueued(sendBlocks);
      return Ok;
    }
  }
}

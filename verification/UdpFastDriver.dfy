/** The UDPFast object, with the workers' locals as fields. Each method is one step of
    UdpFastModel, done in place with the source's loops. */
module UdpFastDriver {
  import opened Framing
  import opened Chunks
  import opened UdpFastModel

  class UdpFast {
    const batchSize: nat

    // guarded by rxLock
    var vpool: seq<Vec>
    var pending: seq<Pkt>

    // local to the receive worker
    var msgs: seq<Vec>
    var notifycache: bool

    // local to the cache worker
    var inprog: seq<Pkt>

    var vpoolStall: bool
    var pendingReady: bool
    var running: bool

    // guarded by shortLock, and the temporaries of Clear Shorts
    var shortBuf: seq<Pkt>
    var shortLimit: nat
    var clearing: seq<seq<Pkt>>

    var rxcnt: nat
    var nignore: nat
    var noom: nat
    var ukncount: nat
    var blocks: map<u16, Block>

    ghost var rx: RxPc
    ghost var cache: CachePc
    ghost var stop: StopPc
    ghost var accepted: seq<Pkt>
    ghost var dispatched: seq<Pkt>
    ghost var poked: bool

    ghost function View(): State
      reads this
    {
      State(batchSize, vpool, pending, rx, msgs, notifycache, cache, inprog, vpoolStall, pendingReady, running, stop,
            shortBuf, shortLimit, clearing, rxcnt, nignore, noom, ukncount, blocks, accepted, dispatched, poked)
    }

    constructor (batchSize: nat, total: nat, maxpktlen: nat, blocks: map<u16, Block>)
      requires batchSize > 0 && maxpktlen >= 8
      requires forall id :: id in blocks ==> blocks[id].count == 0
      ensures Initial(View(), total) && this.batchSize == batchSize && this.blocks == blocks
    {
      this.batchSize := batchSize;
      var pool: seq<Vec> := [];
      while |pool| < total
        invariant |pool| <= total
        invariant forall i :: 0 <= i < |pool| ==> pool[i].Buf? && pool[i].id == i && |pool[i].data| == maxpktlen
      {
        pool := pool + [Buf(|pool|, seq(maxpktlen, _ => 0))];
      }
      vpool, pending, msgs, notifycache, inprog := pool, [], seq(batchSize, _ => Empty), false, [];
      vpoolStall, pendingReady, running := false, false, true;
      shortBuf, shortLimit, clearing := [], 0, [];
      rxcnt, nignore, noom, ukncount, this.blocks := 0, 0, 0, 0, blocks;
      rx, cache, stop, accepted, dispatched, poked := Head, Deassign, NotStopped, [], [], false;
    }

    // ----- the receive worker -----

    /** The head of the main loop: exit, stall, or assign buffers and unlock. */
    method LoopHead()
      modifies this`rx, this`msgs, this`noom, this`vpool
      ensures View() == AtHead(old(View()))
    {
      if !running {
        msgs, rx := [], RxDone;
        return;
      }
      if vpool == [] {
        noom, rx := noom + 1, Stalled;
        return;
      }
      var nassign := AssignBuffers();
      rx := Notify(nassign);
    }

    method AssignBuffers() returns (nassign: nat)
      modifies this`vpool, this`msgs
      ensures Assigned(vpool, msgs, nassign) == Assign(old(vpool), old(msgs), 0)
    {
      nassign := |msgs|;
      var i := 0;
      while i < nassign
        invariant i <= nassign == |msgs|
        invariant Assign(old(vpool), old(msgs), 0) == Assign(vpool, msgs, i)
      {
        if msgs[i] != Empty {
          // re-use leftovers
        } else if vpool == [] {
          nassign := i;
          break;
        } else {
          var last := |vpool| - 1;
          msgs, vpool := msgs[i := vpool[last]], vpool[..last];
        }
        i := i + 1;
      }
    }

    method StartReceive()
      requires Enabled(View(), RxHead)
      modifies this`rx, this`msgs, this`noom, this`vpool
      ensures View() == Next(old(View()), RxHead)
    {
      LoopHead();
    }

    method StallWakes()
      requires Enabled(View(), RxWake)
      modifies this`vpoolStall, this`rx, this`poked
      ensures View() == Next(old(View()), RxWake)
    {
      vpoolStall := false;
      rx, poked := Head, false;
    }

    method NotifyCache()
      requires Enabled(View(), RxNotify)
      modifies this`pendingReady, this`notifycache, this`rx
      ensures View() == Next(old(View()), RxNotify)
    {
      if notifycache {
        pendingReady := true;
        notifycache := false;
      }
      rx := Receive(rx.nassign);
    }

    /** recvmmsg has filled slots 0..|ds|; sort them out, then back to the loop's head. */
    method ReceiveBatch(ds: seq<Datagram>, now: Time)
      requires Enabled(View(), RxReceive(ds, now)) && Safe(View(), RxReceive(ds, now))
      modifies this
      ensures View() == Next(old(View()), RxReceive(ds, now))
    {
      hide AtHead, ReceiveOne, DispatchInprog, FillShort, ReturnBuffers;
      rxcnt := rxcnt + |ds|;
      ghost var s := View();
      var i := 0;
      while i < |ds|
        invariant i <= |ds| && SlotsFilled(msgs, i, |ds|)
        invariant ReceiveAll(s, 0, ds, now) == ReceiveAll(View(), i, ds, now)
      {
        TakeOrIgnore(i, ds[i], now);
        i := i + 1;
      }
      LoopHead();
    }

    /** The tests of one received slot, in the source's order. */
    method Judge(v: Vec, d: Datagram) returns (take: bool)
      requires v.Buf?
      ensures take == Accepts(v, d)
      ensures take ==> HEADER_SIZE <= |d.bytes|
    {
      var len := Length(v, d);
      if !d.fromPeer {
        return false;
      } else if len < HEADER_SIZE {
        return false;
      } else if !HeaderOk(d.bytes) {
        return false;
      }
      var blen := HeaderLen(d.bytes);
      return blen >= len - HEADER_SIZE;
    }

    method TakeOrIgnore(i: nat, d: Datagram, now: Time)
      requires i < |msgs| && msgs[i].Buf?
      modifies this`msgs, this`nignore, this`notifycache, this`pending, this`accepted
      ensures View() == ReceiveOne(old(View()), i, d, now)
      ensures |msgs| == |old(msgs)| && forall j :: i < j < |msgs| ==> msgs[j] == old(msgs[j])
    {
      hide Accepts, Landed, HeaderId, HeaderLen;
      var v := Landed(msgs[i], d);
      var take := Judge(msgs[i], d);
      if !take {
        msgs, nignore := msgs[i := v], nignore + 1;
        return;
      }
      Enqueue(Pkt(v, HeaderLen(d.bytes), now, HeaderId(d.bytes)));
      msgs := msgs[i := Empty];
    }

    method Enqueue(pkt: Pkt)
      modifies this`notifycache, this`pending, this`accepted
      ensures notifycache == (old(notifycache) || old(pending) == [])
      ensures pending == old(pending) + [pkt] && accepted == old(accepted) + [pkt]
    {
      notifycache := notifycache || pending == [];
      pending, accepted := pending + [pkt], accepted + [pkt];
    }

    // ----- the cache worker -----

    method ReturnConsumed()
      requires Enabled(View(), CDeassign)
      modifies this`vpool, this`inprog, this`cache
      ensures View() == Next(old(View()), CDeassign)
    {
      hide Bodies;
      var unstall := false;
      BodiesOfNone();
      assert vpool + [] == vpool;
      if inprog != [] {
        unstall := vpool == [];
        ReturnBodies();
        inprog := [];
        unstall := unstall && vpool != [];
      }
      cache := if unstall then Unstall else Check;
    }

    method ReturnBodies()
      modifies this`vpool
      ensures vpool == old(vpool) + Bodies(inprog)
    {
      var i := 0;
      while i < |inprog|
        invariant i <= |inprog|
        invariant vpool == old(vpool) + Bodies(inprog[..i])
      {
        var body := inprog[i].body;
        BodiesStep(inprog, i);
        if body != Empty {
          vpool := vpool + [body];
        }
        i := i + 1;
      }
      assert inprog[..i] == inprog;
    }

    method SignalStall()
      requires Enabled(View(), CUnstall)
      modifies this`vpoolStall, this`cache
      ensures View() == Next(old(View()), CUnstall)
    {
      vpoolStall := true;
      cache := Check;
    }

    method CheckRunning()
      requires Enabled(View(), CCheck)
      modifies this`cache
      ensures View() == Next(old(View()), CCheck)
    {
      cache := if running then Wait else CacheDone;
    }

    method ReadyWakes()
      requires Enabled(View(), CWake)
      modifies this`pendingReady, this`cache
      ensures View() == Next(old(View()), CWake)
    {
      pendingReady := false;
      cache := Woken;
    }

    method GrabPending()
      requires Enabled(View(), CSwap)
      modifies this`inprog, this`pending, this`cache
      ensures View() == Next(old(View()), CSwap)
    {
      hide DispatchInprog, AtHead, AfterReceive, FillShort, ReturnBuffers;
      inprog, pending := pending, inprog;
      cache := Dispatch;
    }

    method DispatchToBlocks()
      requires Enabled(View(), CDispatch)
      modifies this`blocks, this`ukncount, this`dispatched, this`cache
      ensures View() == Next(old(View()), CDispatch)
    {
      hide DispatchAll, AtHead, AfterReceive, FillShort, ReturnBuffers;
      DispatchEach();
      dispatched, cache := dispatched + inprog, if inprog == [] then Deassign else Write;
    }

    method DispatchEach()
      modifies this`blocks, this`ukncount
      ensures Sink(blocks, ukncount) == DispatchAll(Sink(old(blocks), old(ukncount)), inprog)
    {
      ghost var k := Sink(blocks, ukncount);
      var i := 0;
      while i < |inprog|
        invariant i <= |inprog|
        invariant Sink(blocks, ukncount) == DispatchAll(k, inprog[..i])
      {
        var pkt := inprog[i];
        if pkt.msgid !in blocks {
          ukncount := ukncount + 1;
        } else {
          var blk := blocks[pkt.msgid];
          blk := blk.(count := blk.count + 1);
          blk := blk.(rxtime := pkt.rxtime);
          blk := blk.(data := Data(pkt.body));
          blk := blk.(requests := blk.requests + 1);
          blk := blk.(heard := blk.heard + [blk.data]);
          blocks := blocks[pkt.msgid := blk];
        }
        assert inprog[..i + 1][..i] == inprog[..i];
        i := i + 1;
      }
      assert inprog[..i] == inprog;
    }

    method MoveToShort()
      requires Enabled(View(), CShorten) && Safe(View(), CShorten)
      modifies this`shortBuf, this`inprog, this`cache
      ensures View() == Next(old(View()), CShorten)
    {
      var istart := |shortBuf|;
      var nmove := Min(|inprog|, shortLimit - istart);
      if nmove != 0 {
        shortBuf := shortBuf + seq(nmove, _ => NO_PKT);
        SwapRanges(istart, nmove);
      }
      assert nmove == 0 ==> seq(nmove, _ => NO_PKT) + inprog[nmove..] == inprog;
      assert nmove == 0 ==> shortBuf + inprog[..nmove] == shortBuf;
      cache := Deassign;
    }

    method SwapRanges(istart: nat, n: nat)
      requires istart + n == |shortBuf| && n <= |inprog|
      modifies this`shortBuf, this`inprog
      ensures shortBuf == old(shortBuf)[..istart] + old(inprog)[..n]
      ensures inprog == old(shortBuf)[istart..] + old(inprog)[n..]
    {
      var j := 0;
      while j < n
        invariant j <= n && |shortBuf| == |old(shortBuf)| && |inprog| == |old(inprog)|
        invariant forall m :: 0 <= m < |shortBuf| ==>
          shortBuf[m] == if istart <= m < istart + j then old(inprog)[m - istart] else old(shortBuf)[m]
        invariant forall m :: 0 <= m < |inprog| ==>
          inprog[m] == if m < j then old(shortBuf)[istart + m] else old(inprog)[m]
      {
        var a, b := shortBuf[istart + j], inprog[j];
        shortBuf, inprog := shortBuf[istart + j := b], inprog[j := a];
        j := j + 1;
      }
    }

    // ----- record support and stop() -----

    method TakeShort()
      requires Enabled(View(), ClearTake)
      modifies this`clearing, this`shortBuf
      ensures View() == Next(old(View()), ClearTake)
    {
      clearing, shortBuf := clearing + [shortBuf], [];
    }

    method ReturnShort(i: nat)
      requires Enabled(View(), ClearReturn(i)) && Safe(View(), ClearReturn(i))
      modifies this`vpool, this`clearing, this`poked
      ensures View() == Next(old(View()), ClearReturn(i))
    {
      hide Bodies, AtHead, AfterReceive, DispatchInprog, FillShort, ReturnBuffers;
      var temp := clearing[i];
      ReturnCleared(temp);
      clearing, poked := clearing[..i] + clearing[i + 1..], poked || (rx.Stalled? && temp != []);
    }

    method ReturnCleared(temp: seq<Pkt>)
      requires AllHold(temp)
      modifies this`vpool
      ensures vpool == old(vpool) + Bodies(temp)
    {
      hide Bodies;
      BodiesOfNone();
      var i := 0;
      while i < |temp|
        invariant i <= |temp|
        invariant vpool == old(vpool) + Bodies(temp[..i])
      {
        BodiesStep(temp, i);
        vpool := vpool + [temp[i].body];
        assert vpool[|vpool| - 1] != Empty;
        i := i + 1;
      }
      assert temp[..i] == temp;
    }

    /** devudp_read_shortbuf expands the limit to what its record can hold. */
    method ExpandShortLimit(nelm: nat)
      modifies this`shortLimit
      ensures View() == Next(old(View()), RaiseLimit(nelm))
    {
      if shortLimit < nelm {
        shortLimit := nelm;
      }
    }

    /** devudp_reopen and devudp_set_record wake the cache worker. */
    method NudgeCache()
      modifies this`pendingReady
      ensures View() == Next(old(View()), Nudge)
    {
      pendingReady := true;
    }

    /** stop(): clear running, then raise the two events; the workers may run in between. */
    method ClearRunning()
      requires Enabled(View(), StopFlag)
      modifies this`running, this`stop
      ensures View() == Next(old(View()), StopFlag)
    {
      running, stop := false, Flagged;
    }

    method StopSignalsStall()
      requires Enabled(View(), StopRx)
      modifies this`vpoolStall, this`stop
      ensures View() == Next(old(View()), StopRx)
    {
      vpoolStall, stop := true, RxSignalled;
    }

    method StopSignalsReady()
      requires Enabled(View(), StopCache)
      modifies this`pendingReady, this`stop
      ensures View() == Next(old(View()), StopCache)
    {
      pendingReady, stop := true, Signalled;
    }
  }

  lemma BodiesStep(ps: seq<Pkt>, i: nat)
    requires i < |ps|
    ensures Bodies(ps[..i + 1]) == Bodies(ps[..i]) + (if ps[i].body == Empty then [] else [ps[i].body])
  {
    assert ps[..i + 1][..i] == ps[..i];
  }

  lemma BodiesOfNone()
    ensures Bodies([]) == []
  {
  }
}

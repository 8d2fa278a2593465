/** Packets through the pipeline: exactly once, in arrival order, and every one counted. */
module UdpFastDelivery {
  import opened Framing
  import opened Chunks
  import opened UdpFastModel
  import Buffers = UdpFastBuffers

  /** Accepted packets that the blocks have not seen yet. */
  function InFlight(s: State): seq<Pkt> {
    (if s.cache.Dispatch? then s.inprog else []) + s.pending
  }

  /** k0 is the blocks as the run began with them. */
  ghost predicate Delivery(s: State, k0: Sink) {
    && s.accepted == s.dispatched + InFlight(s)
    && s.rxcnt == s.nignore + |s.accepted|
    && Sink(s.blocks, s.ukncount) == DispatchAll(k0, s.dispatched)
    && (s.cache.Unstall? || s.cache.Check? || s.cache.Wait? || s.cache.Woken? || s.cache.CacheDone? ==> s.inprog == [])
  }

  /** The same packets were appended to both lists. */
  ghost predicate SameGrowth(a: seq<Pkt>, p: seq<Pkt>, a': seq<Pkt>, p': seq<Pkt>) {
    && |a| <= |a'| && a' == a + a'[|a|..] && p' == p + a'[|a|..]
  }

  lemma GrowthTransitive(a: seq<Pkt>, p: seq<Pkt>, a1: seq<Pkt>, p1: seq<Pkt>, a2: seq<Pkt>, p2: seq<Pkt>)
    requires SameGrowth(a, p, a1, p1) && SameGrowth(a1, p1, a2, p2)
    ensures SameGrowth(a, p, a2, p2)
  {
    assert a2[|a|..] == a1[|a|..] + a2[|a1|..];
  }

  lemma NoGrowth(a: seq<Pkt>, p: seq<Pkt>)
    ensures SameGrowth(a, p, a, p)
  {
    assert a[|a|..] == [];
  }

  /** One slot is taken or ignored; nothing outside the receive worker's business changes. */
  ghost predicate Accounted(s: State, r: State, n: int) {
    && SameGrowth(s.accepted, s.pending, r.accepted, r.pending)
    && n + s.nignore + |s.accepted| == r.nignore + |r.accepted|
    && r.dispatched == s.dispatched && r.blocks == s.blocks && r.ukncount == s.ukncount
    && r.inprog == s.inprog && r.cache == s.cache && r.rxcnt == s.rxcnt
  }

  lemma ReceiveOneAppends(s: State, i: nat, d: Datagram, now: Time)
    requires i < |s.msgs| && s.msgs[i].Buf?
    ensures Accounted(s, ReceiveOne(s, i, d, now), 1)
  {
    hide Accepts, Landed, Accepted;
    if Accepts(s.msgs[i], d) {
      var p := Accepted(s.msgs[i], d, now);
      assert (s.accepted + [p])[|s.accepted|..] == [p];
    }
    NoGrowth(s.accepted, s.pending);
  }

  /** Receiving appends the same packets to accepted and to pending, and accounts for each slot. */
  lemma {:induction false} ReceiveAllAppends(s: State, i: nat, ds: seq<Datagram>, now: Time)
    requires i <= |ds| && SlotsFilled(s.msgs, i, |ds|)
    ensures Accounted(s, ReceiveAll(s, i, ds, now), |ds| - i)
    decreases |ds| - i
  {
    hide SameGrowth;
    if i == |ds| {
      NoGrowth(s.accepted, s.pending);
    } else {
      var r := ReceiveOne(s, i, ds[i], now);
      ReceiveOneAppends(s, i, ds[i], now);
      ReceiveAllAppends(r, i + 1, ds, now);
      var t := ReceiveAll(r, i + 1, ds, now);
      GrowthTransitive(s.accepted, s.pending, r.accepted, r.pending, t.accepted, t.pending);
    }
  }

  lemma HeadKeepsDelivery(s: State, k0: Sink)
    requires Delivery(s, k0)
    ensures Delivery(AtHead(s), k0)
  {
    hide DispatchAll, Assign;
  }

  lemma ReceiveKeepsDelivery(s: State, ds: seq<Datagram>, now: Time, k0: Sink)
    requires Delivery(s, k0) && SlotsFilled(s.msgs, 0, |ds|)
    ensures Delivery(AfterReceive(s, ds, now), k0)
  {
    hide ReceiveAll, AtHead, DispatchAll;
    var s0 := s.(rxcnt := s.rxcnt + |ds|);
    ReceiveAllAppends(s0, 0, ds, now);
    var s1, n := ReceiveAll(s0, 0, ds, now), |s.accepted|;
    var front := if s.cache.Dispatch? then s.inprog else [];
    assert s.dispatched + (front + s.pending) + s1.accepted[n..] == s.dispatched + (front + s1.pending);
    HeadKeepsDelivery(s1, k0);
  }

  lemma {:induction false} DispatchAppend(k: Sink, a: seq<Pkt>, b: seq<Pkt>)
    ensures DispatchAll(k, a + b) == DispatchAll(DispatchAll(k, a), b)
  {
    hide DispatchOne;
    if b == [] {
      assert a + b == a;
    } else {
      var b' := b[..|b| - 1];
      DispatchAppend(k, a, b');
      assert (a + b)[..|a + b| - 1] == a + b';
    }
  }

  lemma DispatchKeepsDelivery(s: State, k0: Sink)
    requires Delivery(s, k0) && s.cache.Dispatch?
    ensures Delivery(DispatchInprog(s), k0)
  {
    hide DispatchAll;
    DispatchAppend(k0, s.dispatched, s.inprog);
    assert s.dispatched + (s.inprog + s.pending) == (s.dispatched + s.inprog) + ([] + s.pending);
  }

  lemma NextKeepsDelivery(s: State, t: Step, k0: Sink)
    requires Delivery(s, k0) && Enabled(s, t) && Safe(s, t)
    ensures Delivery(Next(s, t), k0)
  {
    hide DispatchAll, AtHead, AfterReceive, DispatchInprog;
    match t
    case RxHead => HeadKeepsDelivery(s, k0);
    case RxReceive(ds, now) => ReceiveKeepsDelivery(s, ds, now, k0);
    case CDispatch => DispatchKeepsDelivery(s, k0);
    case CSwap => assert [] + s.pending == s.pending + [];
    case _ =>
  }

  lemma {:induction false} RunKeepsDelivery(states: seq<State>, steps: seq<Step>, total: nat, k: nat)
    requires IsRun(states, steps, total) && k < |states|
    ensures Delivery(states[k], Sink(states[0].blocks, 0))
  {
    hide Next, Safe, Enabled, Buffers.Held, Buffers.Shapes;
    if k == 0 {
      assert Delivery(states[0], Sink(states[0].blocks, 0)) by { InitialDelivery(states[0], total); }
    } else {
      RunKeepsDelivery(states, steps, total, k - 1);
      Buffers.RunKeepsBuffers(states, steps, total, k - 1, Buffers.Any);
      NextKeepsDelivery(states[k - 1], steps[k - 1], Sink(states[0].blocks, 0));
    }
  }

  lemma InitialDelivery(s: State, total: nat)
    requires Initial(s, total)
    ensures Delivery(s, Sink(s.blocks, 0))
  {
  }

  /** An accepted packet carries the datagram's id and declared length, and its buffer begins
      with the body bytes that arrived; what lies behind them is left from before. A datagram
      is ignored exactly if it is not the peer's, has no whole header, a wrong one, or more
      body bytes than it declares. */
  lemma AcceptedCarriesDatagram(v: Vec, d: Datagram, now: Time)
    requires v.Buf?
    ensures var n := Length(v, d);
            && (!Accepts(v, d) <==> !d.fromPeer || n < 8 || d.bytes[..2] != MAGIC || n - 8 > HeaderLen(d.bytes))
            && (Accepts(v, d) ==>
                  var p := Accepted(v, d, now);
                  && p.msgid == Val16(d.bytes[2..4]) && p.bodylen == Val32(d.bytes[4..8]) && p.rxtime == now
                  && p.body.Buf? && p.body.id == v.id && |p.body.data| == |v.data|
                  && p.body.data[..n - 8] == d.bytes[8..n] && p.body.data[n - 8..] == v.data[n - 8..])
  {
    if Accepts(v, d) {
      var n := Length(v, d);
      assert n - 8 > 0 ==> Landed(v, d).data == d.bytes[8..n] + v.data[n - 8..];
    }
  }

  // ----- which packets datagrams become -----

  /** What is received of a datagram, with n bytes of room for its body. */
  function Received(d: Datagram, n: nat): seq<byte> { d.bytes[..Min(|d.bytes|, 8 + n)] }

  /** The peer's, with a whole header that begins with 'P' 'S', and no more body received than
      declared. */
  predicate Proper(d: Datagram, n: nat) {
    var b := Received(d, n);
    d.fromPeer && |b| >= 8 && b[0] == 'P' as int && b[1] == 'S' as int && |b| - 8 <= Val32(b[4..8])
  }

  /** p is the packet that datagram d makes in buffer v. */
  ghost predicate Carries(p: Pkt, v: Vec, d: Datagram, now: Time) {
    && v.Buf? && Proper(d, |v.data|)
    && p.msgid == Val16(d.bytes[2..4]) && p.bodylen == Val32(d.bytes[4..8]) && p.rxtime == now
    && p.body.Buf? && p.body.id == v.id && |p.body.data| == |v.data|
    && var b := Received(d, |v.data|);
       p.body.data[..|b| - 8] == b[8..] && p.body.data[|b| - 8..] == v.data[|b| - 8..]
  }

  /** What an ignored datagram leaves in its slot: the same buffer, with the body bytes received. */
  ghost predicate Leaves(r: Vec, v: Vec, d: Datagram) {
    && v.Buf? && r.Buf? && r.id == v.id && |r.data| == |v.data|
    && var b := Received(d, |v.data|);
       if |b| < 8 then r.data == v.data
       else r.data[..|b| - 8] == b[8..] && r.data[|b| - 8..] == v.data[|b| - 8..]
  }

  lemma LandedLeaves(v: Vec, d: Datagram)
    requires v.Buf?
    ensures Leaves(Landed(v, d), v, d)
  {
    var b := Received(d, |v.data|);
    if |b| > 8 { assert Landed(v, d).data == b[8..] + v.data[|b| - 8..]; }
  }

  /** A datagram that is to be taken, the slot's buffer it came into, and when. */
  datatype Take = Take(v: Vec, d: Datagram, now: Time)

  /** Those of a batch, in the order of the slots, from slot i on. */
  function Takes(msgs: seq<Vec>, i: nat, ds: seq<Datagram>, now: Time): seq<Take>
    requires i <= |ds| && SlotsFilled(msgs, i, |ds|)
    decreases |ds| - i
  {
    if i == |ds| then []
    else
      (if Proper(ds[i], |msgs[i].data|) then [Take(msgs[i], ds[i], now)] else []) + Takes(msgs, i + 1, ds, now)
  }

  ghost predicate AllCarried(ps: seq<Pkt>, ts: seq<Take>) {
    |ps| == |ts| && forall k :: 0 <= k < |ps| ==> Carries(ps[k], ts[k].v, ts[k].d, ts[k].now)
  }

  lemma AllCarriedAppend(ps: seq<Pkt>, ts: seq<Take>, qs: seq<Pkt>, us: seq<Take>)
    requires AllCarried(ps, ts) && AllCarried(qs, us)
    ensures AllCarried(ps + qs, ts + us)
  {
    hide Carries;
  }

  lemma AcceptsProper(v: Vec, d: Datagram)
    requires v.Buf?
    ensures Accepts(v, d) <==> Proper(d, |v.data|)
  {
    if |d.bytes| >= 8 {
      var b := Received(d, |v.data|);
      assert b[..2] == d.bytes[..2] && b[4..8] == d.bytes[4..8];
      assert b[..2] == [b[0], b[1]];
    }
  }

  lemma ReceiveOneCarries(s: State, i: nat, d: Datagram, now: Time)
    requires i < |s.msgs| && s.msgs[i].Buf?
    ensures var r, v := ReceiveOne(s, i, d, now), s.msgs[i];
            && |r.msgs| == |s.msgs| && (forall j :: 0 <= j < |s.msgs| && j != i ==> r.msgs[j] == s.msgs[j])
            && (Proper(d, |v.data|) ==>
                  && r.msgs[i] == Empty && |r.accepted| == |s.accepted| + 1
                  && r.accepted == s.accepted + [r.accepted[|s.accepted|]]
                  && Carries(r.accepted[|s.accepted|], v, d, now))
            && (!Proper(d, |v.data|) ==> r.accepted == s.accepted && Leaves(r.msgs[i], v, d))
  {
    hide Accepts, Accepted, Proper, Carries, Leaves, Landed;
    LandedLeaves(s.msgs[i], d);
    var v := s.msgs[i];
    AcceptsProper(v, d);
    if Accepts(v, d) { CarriesWhatArrived(v, d, now); }
  }

  lemma CarriesWhatArrived(v: Vec, d: Datagram, now: Time)
    requires v.Buf? && Accepts(v, d)
    ensures Carries(Accepted(v, d, now), v, d, now)
  {
    hide Accepts, Accepted, Proper;
    AcceptsProper(v, d);
    AcceptedCarriesDatagram(v, d, now);
    var b := Received(d, |v.data|);
    assert Proper(d, |v.data|) ==> |b| >= 8 && b[8..] == d.bytes[8..|b|] by { ProperHasHeader(d, |v.data|); }
  }

  lemma ProperHasHeader(d: Datagram, n: nat)
    ensures Proper(d, n) ==> |Received(d, n)| >= 8
  {
  }

  /** A batch: exactly the proper datagrams are accepted, in the order of their slots, each as
      the packet it carries, and their slots are emptied; the other slots keep their buffers. */
  lemma {:induction false} BatchCarries(s: State, i: nat, ds: seq<Datagram>, now: Time)
    requires i <= |ds| && SlotsFilled(s.msgs, i, |ds|)
    ensures var r, n := ReceiveAll(s, i, ds, now), |s.accepted|;
            && n <= |r.accepted| && r.accepted[..n] == s.accepted
            && AllCarried(r.accepted[n..], Takes(s.msgs, i, ds, now))
            && |r.msgs| == |s.msgs| && (forall j :: 0 <= j < i ==> r.msgs[j] == s.msgs[j])
            && (forall j :: i <= j < |ds| ==>
                  if Proper(ds[j], |s.msgs[j].data|) then r.msgs[j] == Empty
                  else Leaves(r.msgs[j], s.msgs[j], ds[j]))
    decreases |ds| - i
  {
    hide Proper, Carries, Leaves, ReceiveOne, AllCarried;
    if i == |ds| {
      assert AllCarried(s.accepted[|s.accepted|..], []) by { NoneCarried(s.accepted[|s.accepted|..]); }
    } else {
      var r, n := ReceiveOne(s, i, ds[i], now), |s.accepted|;
      ReceiveOneCarries(s, i, ds[i], now);
      BatchCarries(r, i + 1, ds, now);
      SameTakes(r.msgs, s.msgs, i + 1, ds, now);
      var t := ReceiveAll(r, i + 1, ds, now);
      if Proper(ds[i], |s.msgs[i].data|) {
        var p := r.accepted[n];
        OneCarried(p, Take(s.msgs[i], ds[i], now));
        AllCarriedAppend([p], [Take(s.msgs[i], ds[i], now)], t.accepted[n + 1..], Takes(s.msgs, i + 1, ds, now));
        assert t.accepted[n] == t.accepted[..n + 1][n] == p;
        assert t.accepted[n..] == [p] + t.accepted[n + 1..];
        assert t.accepted[..n] == t.accepted[..n + 1][..n] == s.accepted;
      } else {
        assert [] + Takes(s.msgs, i + 1, ds, now) == Takes(s.msgs, i + 1, ds, now);
      }
    }
  }

  lemma NoneCarried(ps: seq<Pkt>)
    requires ps == []
    ensures AllCarried(ps, [])
  {
  }

  lemma OneCarried(p: Pkt, t: Take)
    requires Carries(p, t.v, t.d, t.now)
    ensures AllCarried([p], [t])
  {
  }

  lemma {:induction false} SameTakes(a: seq<Vec>, b: seq<Vec>, i: nat, ds: seq<Datagram>, now: Time)
    requires i <= |ds| && SlotsFilled(a, i, |ds|) && SlotsFilled(b, i, |ds|)
    requires forall j :: i <= j < |ds| ==> a[j] == b[j]
    ensures Takes(a, i, ds, now) == Takes(b, i, ds, now)
    decreases |ds| - i
  {
    hide Proper;
    if i < |ds| { SameTakes(a, b, i + 1, ds, now); }
  }

  /** What all batches of a run, up to its k-th step, are to deliver. */
  ghost function RunTakes(states: seq<State>, steps: seq<Step>, k: nat): seq<Take>
    requires k <= |steps| && |states| == |steps| + 1
  {
    if k == 0 then []
    else
      var s, t := states[k - 1], steps[k - 1];
      RunTakes(states, steps, k - 1) +
      (if t.RxReceive? && SlotsFilled(s.msgs, 0, |t.ds|) then Takes(s.msgs, 0, t.ds, t.now) else [])
  }

  lemma NextCarries(s: State, t: Step, ts: seq<Take>)
    requires Enabled(s, t) && Safe(s, t) && AllCarried(s.accepted, ts)
    ensures AllCarried(Next(s, t).accepted, ts + if t.RxReceive? then Takes(s.msgs, 0, t.ds, t.now) else [])
  {
    hide AllCarried, Takes, ReceiveAll, DispatchAll, Bodies, Assign;
    if t.RxReceive? {
      var n, r := |s.accepted|, ReceiveAll(s.(rxcnt := s.rxcnt + |t.ds|), 0, t.ds, t.now);
      BatchCarries(s.(rxcnt := s.rxcnt + |t.ds|), 0, t.ds, t.now);
      AllCarriedAppend(s.accepted, ts, r.accepted[n..], Takes(s.msgs, 0, t.ds, t.now));
      assert r.accepted == s.accepted + r.accepted[n..];
    } else {
      assert ts + [] == ts;
    }
  }

  /** Over a run: the accepted packets are those that the proper datagrams of all batches carry,
      batch after batch, in the order of the slots. */
  lemma {:induction false} AcceptedIsWhatArrived(states: seq<State>, steps: seq<Step>, total: nat, k: nat)
    requires IsRun(states, steps, total) && k < |states|
    ensures AllCarried(states[k].accepted, RunTakes(states, steps, k))
  {
    hide Next, Enabled, Buffers.Held, Buffers.Shapes, AllCarried, Takes;
    if k == 0 {
      NoneCarried(states[0].accepted);
    } else {
      AcceptedIsWhatArrived(states, steps, total, k - 1);
      Buffers.RunKeepsBuffers(states, steps, total, k - 1, Buffers.Any);
      NextCarries(states[k - 1], steps[k - 1], RunTakes(states, steps, k - 1));
    }
  }

  // ----- what dispatching did -----

  /** The packets for one block, in order. */
  function ForBlock(id: u16, ps: seq<Pkt>): seq<Pkt> {
    if ps == [] then [] else ForBlock(id, ps[..|ps| - 1]) + (if ps[|ps| - 1].msgid == id then [ps[|ps| - 1]] else [])
  }

  function Datas(ps: seq<Pkt>): seq<seq<byte>> { seq(|ps|, i requires 0 <= i < |ps| => Data(ps[i].body)) }

  /** What a block is like after a number of packets for it: it counted and announced each of
      them, showed each one's whole buffer to its listeners, and keeps the last one's. */
  ghost predicate Showed(b: Block, mine: seq<Pkt>, r: Block) {
    && r.count == b.count + |mine| && r.requests == b.requests + |mine| && r.heard == b.heard + Datas(mine)
    && (mine == [] ==> r.rxtime == b.rxtime && r.data == b.data)
    && (mine != [] ==> var p := mine[|mine| - 1]; r.rxtime == p.rxtime && r.data == Data(p.body))
  }

  lemma ShowedOneMore(b: Block, mine: seq<Pkt>, r: Block, p: Pkt)
    requires Showed(b, mine, r)
    ensures Showed(b, mine + [p], Shown(r, p))
  {
    assert Datas(mine + [p]) == Datas(mine) + [Data(p.body)];
  }

  /** Any packets: a block is shown its own ones, each once and in order. */
  lemma {:induction false} DispatchedBlock(k: Sink, ps: seq<Pkt>, id: u16)
    requires id in k.blocks
    ensures var r := DispatchAll(k, ps); id in r.blocks && Showed(k.blocks[id], ForBlock(id, ps), r.blocks[id])
  {
    hide Showed, Shown;
    if ps == [] {
      assert Showed(k.blocks[id], [], k.blocks[id]) by { ShowedNothing(k.blocks[id]); }
    } else {
      var ps', p := ps[..|ps| - 1], ps[|ps| - 1];
      DispatchedBlock(k, ps', id);
      ShowedOneMore(k.blocks[id], ForBlock(id, ps'), DispatchAll(k, ps').blocks[id], p);
      assert ForBlock(id, ps') + [] == ForBlock(id, ps');
    }
  }

  lemma ShowedNothing(b: Block)
    ensures Showed(b, [], b)
  {
    assert b.heard + Datas([]) == b.heard;
  }

  /** The packets for no block. */
  function CountUnknown(known: set<u16>, ps: seq<Pkt>): nat {
    if ps == [] then 0
    else CountUnknown(known, ps[..|ps| - 1]) + (if ps[|ps| - 1].msgid in known then 0 else 1)
  }

  /** Dispatching makes no block and takes none away; it counts the packets for none. */
  lemma {:induction false} DispatchedUnknown(k: Sink, ps: seq<Pkt>)
    ensures var r := DispatchAll(k, ps);
            && r.blocks.Keys == k.blocks.Keys
            && r.ukncount == k.ukncount + CountUnknown(k.blocks.Keys, ps)
  {
    hide Shown;
    if ps != [] { DispatchedUnknown(k, ps[..|ps| - 1]); }
  }

  /** The sum of all block counters. */
  ghost function Total(blocks: map<u16, Block>): nat
    decreases |blocks|
  {
    if blocks == map[] then 0
    else
      var id :| id in blocks;
      blocks[id].count + Total(blocks - {id})
  }

  lemma {:induction false} TotalRemove(blocks: map<u16, Block>, id: u16)
    requires id in blocks
    ensures Total(blocks) == blocks[id].count + Total(blocks - {id})
    decreases |blocks|
  {
    var j :| j in blocks && Total(blocks) == blocks[j].count + Total(blocks - {j});
    if j != id {
      TotalRemove(blocks - {j}, id);
      TotalRemove(blocks - {id}, j);
      assert blocks - {j} - {id} == blocks - {id} - {j};
    }
  }

  lemma TotalCountOne(blocks: map<u16, Block>, id: u16, b: Block)
    requires id in blocks
    ensures Total(blocks[id := b]) + blocks[id].count == Total(blocks) + b.count
  {
    TotalRemove(blocks, id);
    TotalRemove(blocks[id := b], id);
    assert blocks[id := b] - {id} == blocks - {id};
  }

  lemma {:induction false} DispatchedTotal(k: Sink, ps: seq<Pkt>)
    ensures var r := DispatchAll(k, ps); Total(r.blocks) + r.ukncount == Total(k.blocks) + k.ukncount + |ps|
  {
    hide Total;
    if ps != [] {
      var ps', p := ps[..|ps| - 1], ps[|ps| - 1];
      DispatchedTotal(k, ps');
      var k' := DispatchAll(k, ps');
      if p.msgid in k'.blocks {
        TotalCountOne(k'.blocks, p.msgid, Shown(k'.blocks[p.msgid], p));
      }
    }
  }

  lemma {:induction false} TotalZero(blocks: map<u16, Block>)
    requires forall id :: id in blocks ==> blocks[id].count == 0
    ensures Total(blocks) == 0
    decreases |blocks|
  {
    if blocks != map[] {
      var id :| id in blocks;
      TotalRemove(blocks, id);
      TotalZero(blocks - {id});
    }
  }

  /** Exactly-once FIFO delivery: in every state of every run, what the receive worker accepted
      is what was dispatched to the blocks, then what is to be dispatched, then what is pending,
      each packet once and in arrival order; and the counters add up. */
  lemma DeliveredOnceInOrder(states: seq<State>, steps: seq<Step>, total: nat, k: nat)
    requires IsRun(states, steps, total) && k < |states|
    ensures var s := states[k];
            && s.accepted == s.dispatched + InFlight(s)
            && s.rxcnt == s.nignore + s.ukncount + Total(s.blocks) + |InFlight(s)|
            && s.blocks.Keys == states[0].blocks.Keys
            && s.ukncount == CountUnknown(s.blocks.Keys, s.dispatched)
            && forall id :: id in states[0].blocks ==>
                 id in s.blocks && Showed(states[0].blocks[id], ForBlock(id, s.dispatched), s.blocks[id])
  {
    hide Total, Showed;
    RunKeepsDelivery(states, steps, total, k);
    var s, k0 := states[k], Sink(states[0].blocks, 0);
    TotalZero(k0.blocks);
    DispatchedTotal(k0, s.dispatched);
    DispatchedUnknown(k0, s.dispatched);
    forall id | id in k0.blocks
      ensures id in s.blocks && Showed(k0.blocks[id], ForBlock(id, s.dispatched), s.blocks[id])
    {
      DispatchedBlock(k0, s.dispatched, id);
    }
  }
}

/** The buffer pool: every buffer is always in exactly one place. */
module UdpFastBuffers {
  import opened Chunks
  import opened UdpFastModel

  // ----- which buffers a list holds -----

  /** What to count: every buffer, or one of them. */
  datatype Which = Any | Only(id: nat)

  function One(v: Vec, w: Which): nat { if v.Buf? && (w.Any? || w.id == v.id) then 1 else 0 }

  function Count(vs: seq<Vec>, w: Which): nat {
    if vs == [] then 0 else Count(vs[..|vs| - 1], w) + One(vs[|vs| - 1], w)
  }

  function PktCount(ps: seq<Pkt>, w: Which): nat {
    if ps == [] then 0 else PktCount(ps[..|ps| - 1], w) + One(ps[|ps| - 1].body, w)
  }

  lemma CountSnoc(vs: seq<Vec>, v: Vec, w: Which)
    ensures Count(vs + [v], w) == Count(vs, w) + One(v, w)
  {
    assert (vs + [v])[..|vs|] == vs;
  }

  lemma PktCountSnoc(ps: seq<Pkt>, p: Pkt, w: Which)
    ensures PktCount(ps + [p], w) == PktCount(ps, w) + One(p.body, w)
  {
    assert (ps + [p])[..|ps|] == ps;
  }

  lemma {:induction false} CountAppend(a: seq<Vec>, b: seq<Vec>, w: Which)
    ensures Count(a + b, w) == Count(a, w) + Count(b, w)
  {
    if b == [] {
      assert a + b == a;
    } else {
      var b', v := b[..|b| - 1], b[|b| - 1];
      CountAppend(a, b', w);
      CountSnoc(a + b', v, w);
      assert a + b == a + b' + [v];
    }
  }

  lemma {:induction false} PktCountAppend(a: seq<Pkt>, b: seq<Pkt>, w: Which)
    ensures PktCount(a + b, w) == PktCount(a, w) + PktCount(b, w)
  {
    if b == [] {
      assert a + b == a;
    } else {
      var b', p := b[..|b| - 1], b[|b| - 1];
      PktCountAppend(a, b', w);
      PktCountSnoc(a + b', p, w);
      assert a + b == a + b' + [p];
    }
  }

  lemma {:induction false} CountUpdate(vs: seq<Vec>, i: nat, v: Vec, w: Which)
    requires i < |vs|
    ensures Count(vs[i := v], w) + One(vs[i], w) == Count(vs, w) + One(v, w)
  {
    var n := |vs| - 1;
    if i == n {
      assert vs[i := v][..n] == vs[..n];
    } else {
      CountUpdate(vs[..n], i, v, w);
      assert vs[i := v][..n] == vs[..n][i := v];
    }
  }

  lemma {:induction false} CountBodies(ps: seq<Pkt>, w: Which)
    ensures Count(Bodies(ps), w) == PktCount(ps, w)
  {
    if ps != [] {
      var ps', v := ps[..|ps| - 1], ps[|ps| - 1].body;
      CountBodies(ps', w);
      if v != Empty { CountSnoc(Bodies(ps'), v, w); }
      assert v == Empty ==> Bodies(ps') + [] == Bodies(ps');
    }
  }

  lemma {:induction false} NoPktsHoldNothing(n: nat, w: Which)
    ensures PktCount(seq(n, _ => NO_PKT), w) == 0
  {
    if n > 0 {
      NoPktsHoldNothing(n - 1, w);
      assert seq(n, _ => NO_PKT)[..n - 1] == seq(n - 1, _ => NO_PKT);
    }
  }

  // ----- shapes -----

  predicate FullVec(v: Vec) { v.Buf? && |v.data| >= 8 }
  predicate FullVecs(vs: seq<Vec>) { forall i :: 0 <= i < |vs| ==> FullVec(vs[i]) }
  predicate FullPkts(ps: seq<Pkt>) { forall i :: 0 <= i < |ps| ==> FullVec(ps[i].body) }
  predicate Slots(vs: seq<Vec>) { forall i :: 0 <= i < |vs| ==> vs[i].Buf? ==> FullVec(vs[i]) }
  predicate PktSlots(ps: seq<Pkt>) { forall i :: 0 <= i < |ps| ==> ps[i].body.Buf? ==> FullVec(ps[i].body) }

  lemma {:induction false} BodiesAreFull(ps: seq<Pkt>)
    requires PktSlots(ps)
    ensures FullVecs(Bodies(ps))
  {
    if ps != [] { BodiesAreFull(ps[..|ps| - 1]); }
  }

  lemma {:induction false} FullBodies(ps: seq<Pkt>)
    requires FullPkts(ps)
    ensures FullVecs(Bodies(ps)) && |Bodies(ps)| == |ps|
  {
    if ps != [] { FullBodies(ps[..|ps| - 1]); }
  }

  lemma {:induction false} FullCount(vs: seq<Vec>)
    requires FullVecs(vs)
    ensures Count(vs, Any) == |vs|
  {
    if vs != [] { FullCount(vs[..|vs| - 1]); }
  }

  lemma {:induction false} FullPktCount(ps: seq<Pkt>)
    requires FullPkts(ps)
    ensures PktCount(ps, Any) == |ps|
  {
    if ps != [] { FullPktCount(ps[..|ps| - 1]); }
  }

  lemma {:induction false} SlotCount(vs: seq<Vec>)
    ensures Count(vs, Any) <= |vs|
  {
    if vs != [] { SlotCount(vs[..|vs| - 1]); }
  }

  /** What every place holds at every lock release: only receive slots, and packets already
      copied to shortBuf, may be empty. */
  ghost predicate Shapes(s: State) {
    && s.batchSize > 0
    && FullVecs(s.vpool) && FullPkts(s.pending) && FullPkts(s.shortBuf) && FullPkts(Cleared(s))
    && Slots(s.msgs) && PktSlots(s.inprog)
    && |s.msgs| == (if s.rx.RxDone? then 0 else s.batchSize)
    && (s.rx.Notify? ==> SlotsFilled(s.msgs, 0, s.rx.nassign))
    && (s.rx.Receive? ==> SlotsFilled(s.msgs, 0, s.rx.nassign))
    && (s.cache.Unstall? || s.cache.Check? || s.cache.Wait? || s.cache.Woken? || s.cache.CacheDone? ==> s.inprog == [])
    && (s.cache.Dispatch? || s.cache.Write? || s.cache.Shorten? ==> FullPkts(s.inprog))
    && |s.shortBuf| <= s.shortLimit
  }

  /** How often a buffer is held, over all the places the header's comment lists and the two
      temporaries. */
  function Held(s: State, w: Which): nat {
    Count(s.vpool, w) + Count(s.msgs, w) + PktCount(s.pending, w)
    + PktCount(s.inprog, w) + PktCount(s.shortBuf, w) + PktCount(Cleared(s), w)
  }

  // ----- assigning and receiving -----

  lemma {:induction false} AssignKeeps(vpool: seq<Vec>, msgs: seq<Vec>, i: nat, w: Which)
    requires i <= |msgs| && SlotsFilled(msgs, 0, i) && FullVecs(vpool) && Slots(msgs)
    ensures var a := Assign(vpool, msgs, i);
            && |a.msgs| == |msgs| && i <= a.nassign <= |msgs| && SlotsFilled(a.msgs, 0, a.nassign)
            && FullVecs(a.vpool) && Slots(a.msgs)
            && Count(a.vpool, w) + Count(a.msgs, w) == Count(vpool, w) + Count(msgs, w)
    decreases |msgs| - i
  {
    if i < |msgs| {
      if msgs[i] != Empty {
        AssignKeeps(vpool, msgs, i + 1, w);
      } else if vpool != [] {
        var n := |vpool| - 1;
        CountUpdate(msgs, i, vpool[n], w);
        AssignKeeps(vpool[..n], msgs[i := vpool[n]], i + 1, w);
      }
    }
  }

  lemma HeadKeeps(s: State, w: Which)
    requires Shapes(s) && !s.rx.RxDone?
    ensures var r := AtHead(s);
            Shapes(r) && Held(r, w) <= Held(s, w) && (!r.rx.RxDone? ==> Held(r, w) == Held(s, w))
  {
    hide Flatten, Assign, SlotsFilled, FullVecs, FullPkts, Slots, PktSlots, Count, PktCount;
    NoSlots(s.msgs);
    AssignKeeps(s.vpool, s.msgs, 0, w);
    NoneCounted(w);
    NoneFull();
  }

  lemma NoSlots(msgs: seq<Vec>)
    ensures SlotsFilled(msgs, 0, 0)
  {
  }

  lemma NoneFull()
    ensures Slots([]) && FullVecs([]) && FullPkts([]) && PktSlots([])
  {
  }

  lemma NoneCounted(w: Which)
    ensures Count([], w) == 0 && PktCount([], w) == 0
  {
  }

  lemma ReceiveOneKeeps(s: State, i: nat, d: Datagram, now: Time, w: Which)
    requires Slots(s.msgs) && FullPkts(s.pending) && i < |s.msgs| && s.msgs[i].Buf?
    ensures var r := ReceiveOne(s, i, d, now);
            && Slots(r.msgs) && FullPkts(r.pending) && |r.msgs| == |s.msgs|
            && Count(r.msgs, w) + PktCount(r.pending, w) == Count(s.msgs, w) + PktCount(s.pending, w)
            && (forall j :: 0 <= j < |s.msgs| && j != i ==> r.msgs[j] == s.msgs[j])
            && OnlyReceived(s, r)
  {
    hide Count, PktCount, Accepts;
    var v := s.msgs[i];
    assert FullVec(v);
    if Accepts(v, d) {
      CountUpdate(s.msgs, i, Empty, w);
      PktCountSnoc(s.pending, Accepted(v, d, now), w);
    } else {
      CountUpdate(s.msgs, i, Landed(v, d), w);
    }
  }

  /** r differs from s at most in what receiving changes. */
  ghost predicate OnlyReceived(s: State, r: State) {
    r == s.(msgs := r.msgs, pending := r.pending, notifycache := r.notifycache,
            accepted := r.accepted, nignore := r.nignore)
  }

  lemma {:induction false} ReceiveAllKeeps(s: State, i: nat, ds: seq<Datagram>, now: Time, w: Which)
    requires Slots(s.msgs) && FullPkts(s.pending) && i <= |ds| && SlotsFilled(s.msgs, i, |ds|)
    ensures var r := ReceiveAll(s, i, ds, now);
            && Slots(r.msgs) && FullPkts(r.pending) && |r.msgs| == |s.msgs|
            && Count(r.msgs, w) + PktCount(r.pending, w) == Count(s.msgs, w) + PktCount(s.pending, w)
            && OnlyReceived(s, r)
    decreases |ds| - i
  {
    hide ReceiveOne, Slots, FullPkts, Count, PktCount;
    if i < |ds| {
      ReceiveOneKeeps(s, i, ds[i], now, w);
      ReceiveAllKeeps(ReceiveOne(s, i, ds[i], now), i + 1, ds, now, w);
    }
  }

  lemma AfterReceiveKeeps(s: State, ds: seq<Datagram>, now: Time, w: Which)
    requires Shapes(s) && s.rx.Receive? && SlotsFilled(s.msgs, 0, |ds|)
    ensures var r := AfterReceive(s, ds, now);
            Shapes(r) && Held(r, w) <= Held(s, w) && (!r.rx.RxDone? ==> Held(r, w) == Held(s, w))
  {
    hide Flatten, ReceiveAll, AtHead, SlotsFilled, FullVecs, FullPkts, Slots, PktSlots, Count, PktCount;
    var s0 := s.(rxcnt := s.rxcnt + |ds|);
    ReceiveAllKeeps(s0, 0, ds, now, w);
    var s1 := ReceiveAll(s0, 0, ds, now);
    var s2 := s1.(rx := Head);
    HeadKeeps(s2, w);
    assert AtHead(s1) == AtHead(s2) by { HeadIgnoresPc(s1); }
  }

  lemma HeadIgnoresPc(s: State)
    ensures AtHead(s) == AtHead(s.(rx := Head))
  {
  }

  // ----- the other steps -----

  lemma ReturnKeeps(s: State, w: Which)
    requires Shapes(s) && s.cache.Deassign?
    ensures Shapes(ReturnBuffers(s)) && Held(ReturnBuffers(s), w) == Held(s, w)
  {
    hide Flatten, Bodies, Count, PktCount;
    BodiesAreFull(s.inprog);
    CountBodies(s.inprog, w);
    CountAppend(s.vpool, Bodies(s.inprog), w);
    NoneCounted(w);
  }

  lemma ShortenKeeps(s: State, w: Which)
    requires Shapes(s) && s.cache.Shorten?
    ensures Shapes(FillShort(s)) && Held(FillShort(s), w) == Held(s, w)
  {
    hide Flatten, Count, PktCount;
    var n := Min(|s.inprog|, s.shortLimit - |s.shortBuf|);
    var front, back := s.inprog[..n], s.inprog[n..];
    NoPktsHoldNothing(n, w);
    PktCountAppend(seq(n, _ => NO_PKT), back, w);
    PktCountAppend(s.shortBuf, front, w);
    PktCountAppend(front, back, w);
    assert s.inprog == front + back;
  }

  lemma ClearReturnKeeps(s: State, i: nat, w: Which)
    requires Shapes(s) && i < |s.clearing|
    ensures AllHold(s.clearing[i])
    ensures var r := ClearReturned(s, i); Shapes(r) && Held(r, w) == Held(s, w)
  {
    hide Bodies, Count, PktCount, Flatten, FullVecs, Slots, PktSlots, SlotsFilled;
    var before, back, after := Flatten(s.clearing[..i]), s.clearing[i], Flatten(s.clearing[i + 1..]);
    FlattenWithout(s.clearing, i);
    FullParts(before, back, after);
    PktCountAppend(before + back, after, w);
    PktCountAppend(before, back, w);
    PktCountAppend(before, after, w);
    CountBodies(back, w);
    CountAppend(s.vpool, Bodies(back), w);
    FullVecsAppend(s.vpool, Bodies(back));
  }

  lemma FullParts(a: seq<Pkt>, b: seq<Pkt>, c: seq<Pkt>)
    requires FullPkts(a + b + c)
    ensures FullPkts(a + c) && FullPkts(b) && AllHold(b) && FullVecs(Bodies(b))
  {
    hide Bodies;
    var ps := a + b + c;
    assert forall j :: 0 <= j < |b| ==> b[j] == ps[|a| + j];
    assert forall j :: 0 <= j < |c| ==> c[j] == ps[|a + b| + j];
    assert forall j :: 0 <= j < |a| ==> a[j] == ps[j];
    FullBodies(b);
  }

  lemma FullVecsAppend(a: seq<Vec>, b: seq<Vec>)
    requires FullVecs(a) && FullVecs(b)
    ensures FullVecs(a + b)
  {
  }

  lemma ClearTakeKeeps(s: State, w: Which)
    requires Shapes(s)
    ensures var r := Next(s, ClearTake); Shapes(r) && Held(r, w) == Held(s, w)
  {
    hide PktCount, Count, Flatten, FullVecs, Slots, PktSlots, SlotsFilled;
    FlattenSnoc(s.clearing, s.shortBuf);
    PktCountAppend(Cleared(s), s.shortBuf, w);
    NoneCounted(w);
  }

  lemma OtherStepsKeep(s: State, t: Step, w: Which)
    requires Shapes(s) && Enabled(s, t)
    requires !t.RxHead? && !t.RxReceive? && !t.CDeassign? && !t.CShorten? && !t.ClearTake? && !t.ClearReturn?
    ensures var r := Next(s, t); Shapes(r) && Held(r, w) == Held(s, w)
  {
    hide Flatten, SlotsFilled, FullVecs, FullPkts, Slots, PktSlots, Count, PktCount;
    NoneCounted(w);
    NoneFull();
    if t.CSwap? { FullAreSlots(s.pending); }
  }

  lemma FullAreSlots(ps: seq<Pkt>)
    requires FullPkts(ps)
    ensures PktSlots(ps)
  {
  }

  /** Every step keeps the shapes and neither loses, duplicates nor invents a buffer, except
      that the receive worker's slots go with it when it exits. */
  lemma NextKeepsBuffers(s: State, t: Step, w: Which)
    requires Shapes(s) && Enabled(s, t)
    ensures Safe(s, t)
    ensures var r := Next(s, t);
            && Shapes(r)
            && Held(r, w) <= Held(s, w)
            && (!r.rx.RxDone? || s.rx.RxDone? ==> Held(r, w) == Held(s, w))
  {
    hide Held, AtHead, AfterReceive, ReturnBuffers, FillShort, ClearReturned;
    match t
    case RxHead => HeadKeeps(s, w);
    case RxReceive(ds, now) => AfterReceiveKeeps(s, ds, now, w);
    case CDeassign => ReturnKeeps(s, w);
    case CShorten => ShortenKeeps(s, w);
    case ClearTake => ClearTakeKeeps(s, w);
    case ClearReturn(i) => ClearReturnKeeps(s, i, w);
    case _ => OtherStepsKeep(s, t, w);
  }

  // ----- runs -----

  lemma {:induction false} InitialCount(vs: seq<Vec>, w: Which)
    requires forall i :: 0 <= i < |vs| ==> vs[i].Buf? && vs[i].id == i
    ensures Count(vs, w) == if w.Any? then |vs| else if w.id < |vs| then 1 else 0
  {
    if vs != [] { InitialCount(vs[..|vs| - 1], w); }
  }

  lemma {:induction false} NoneHeld(n: nat, w: Which)
    ensures Count(seq(n, _ => Empty), w) == 0
  {
    if n > 0 {
      NoneHeld(n - 1, w);
      assert seq(n, _ => Empty)[..n - 1] == seq(n - 1, _ => Empty);
    }
  }

  function Share(total: nat, w: Which): nat { if w.Any? then total else if w.id < total then 1 else 0 }

  lemma InitialHeld(s: State, total: nat, w: Which)
    requires Initial(s, total)
    ensures Shapes(s) && Held(s, w) == Share(total, w)
  {
    InitialCount(s.vpool, w);
    NoneHeld(s.batchSize, w);
  }

  lemma {:induction false} RunKeepsBuffers(states: seq<State>, steps: seq<Step>, total: nat, k: nat, w: Which)
    requires IsRun(states, steps, total) && k < |states|
    ensures Shapes(states[k])
    ensures k < |steps| ==> Safe(states[k], steps[k])
    ensures Held(states[k], w) <= Share(total, w)
    ensures !states[k].rx.RxDone? ==> Held(states[k], w) == Share(total, w)
  {
    hide Held, Shapes, Initial, Enabled, Next;
    if k == 0 {
      InitialHeld(states[0], total, w);
    } else {
      RunKeepsBuffers(states, steps, total, k - 1, w);
      NextKeepsBuffers(states[k - 1], steps[k - 1], w);
      DoneIsFinal(states[k - 1], steps[k - 1]);
    }
    if k < |steps| { NextKeepsBuffers(states[k], steps[k], w); }
  }

  lemma DoneIsFinal(s: State, t: Step)
    requires Enabled(s, t) && Safe(s, t)
    ensures s.rx.RxDone? ==> Next(s, t).rx.RxDone?
  {
  }

  /** Buffer conservation: in every state of every run, until the receive worker exits, each of
      the pool's buffers is in exactly one place, once, and no other buffer is anywhere; and no
      step finds a slot empty that it takes to be filled, or shortBuf over its limit. */
  lemma EachBufferInOnePlace(states: seq<State>, steps: seq<Step>, total: nat, k: nat, id: nat)
    requires IsRun(states, steps, total) && k < |states|
    ensures !states[k].rx.RxDone? ==> Held(states[k], Only(id)) == if id < total then 1 else 0
    ensures !states[k].rx.RxDone? ==> Held(states[k], Any) == total
    ensures Held(states[k], Only(id)) <= 1
    ensures |states[k].shortBuf| <= states[k].shortLimit
    ensures k < |steps| ==> Safe(states[k], steps[k])
  {
    RunKeepsBuffers(states, steps, total, k, Only(id));
    RunKeepsBuffers(states, steps, total, k, Any);
  }
}

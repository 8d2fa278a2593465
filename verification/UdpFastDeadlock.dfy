/** The runs that do deadlock, and which of them for ever: the numeric bound of UdpFastProgress
    is exact, and one Clear Short during a stall defeats every bound. */
module UdpFastDeadlock {
  import opened Framing
  import opened Chunks
  import opened UdpFastModel
  import opened UdpFastBuffers
  import opened UdpFastProgress

  // ----- paths -----

  ghost predicate Path(s: State, ts: seq<Step>, t: State)
    decreases |ts|
  {
    if ts == [] then s == t
    else Enabled(s, ts[0]) && Safe(s, ts[0]) && Path(Next(s, ts[0]), ts[1..], t)
  }

  lemma {:induction false} PathAppend(s: State, ts: seq<Step>, t: State, us: seq<Step>, u: State)
    requires Path(s, ts, t) && Path(t, us, u)
    ensures Path(s, ts + us, u)
    decreases |ts|
  {
    hide Enabled, Safe, Next;
    if ts == [] {
      assert ts + us == us;
    } else {
      PathAppend(Next(s, ts[0]), ts[1..], t, us, u);
      assert (ts + us)[1..] == ts[1..] + us;
    }
  }

  lemma OneStep(s: State, t: Step)
    requires Enabled(s, t) && Safe(s, t)
    ensures Path(s, [t], Next(s, t))
  {
    assert Path(Next(s, t), [], Next(s, t));
  }

  /** The states a path goes through. */
  ghost function Trace(s: State, ts: seq<Step>, t: State): (r: seq<State>)
    requires Path(s, ts, t)
    ensures |r| == |ts| + 1 && r[0] == s && r[|ts|] == t
    decreases |ts|
  {
    if ts == [] then [s] else [s] + Trace(Next(s, ts[0]), ts[1..], t)
  }

  lemma {:induction false} TraceSteps(s: State, ts: seq<Step>, t: State, i: nat)
    requires Path(s, ts, t) && i < |ts|
    ensures var r := Trace(s, ts, t); Enabled(r[i], ts[i]) && Safe(r[i], ts[i]) && r[i + 1] == Next(r[i], ts[i])
    decreases |ts|
  {
    hide Enabled, Safe, Next;
    if i > 0 { TraceSteps(Next(s, ts[0]), ts[1..], t, i - 1); }
  }

  lemma PathIsRun(s: State, ts: seq<Step>, t: State, total: nat)
    requires Initial(s, total) && Path(s, ts, t)
    ensures IsRun(Trace(s, ts, t), ts, total)
  {
    hide Initial, Enabled, Safe, Next, Path;
    var r := Trace(s, ts, t);
    forall i | 0 <= i < |ts|
      ensures Enabled(r[i], ts[i]) && (Safe(r[i], ts[i]) ==> r[i + 1] == Next(r[i], ts[i]))
    {
      TraceSteps(s, ts, t, i);
    }
  }

  /** Clear Short is never processed. */
  predicate NoClear(ts: seq<Step>) { forall i :: 0 <= i < |ts| ==> !ts[i].ClearTake? }

  // ----- which deadlocks last -----

  /** Without stop()'s signal. */
  predicate NoStop(ts: seq<Step>) { forall i :: 0 <= i < |ts| ==> !ts[i].StopRx? }

  /** Some steps, of whichever worker or from outside but for stop()'s, end the receive
      worker's stall. */
  ghost predicate Resumes(s: State) {
    exists ts: seq<Step>, t: State :: Path(s, ts, t) && NoStop(ts) && !t.rx.Stalled?
  }

  /** Nothing will signal the stalled receive worker: the cache worker takes a pool that is not
      empty for no stall, and leaves an empty one empty if all that it can still take fits into
      shortBuf. */
  ghost predicate Hopeless(s: State) {
    && s.rx.Stalled? && !s.vpoolStall && !s.cache.Unstall?
    && (s.vpool == [] ==>
          && |s.pending| + PktCount(s.inprog, Any) <= s.shortLimit - |s.shortBuf|
          && (s.cache.Deassign? ==> PktCount(s.inprog, Any) == 0))
  }

  lemma {:induction false} NoBodiesCounted(ps: seq<Pkt>)
    requires PktCount(ps, Any) == 0
    ensures Bodies(ps) == []
  {
    if ps != [] { NoBodiesCounted(ps[..|ps| - 1]); }
  }

  lemma ShortenKeepsHopeless(s: State)
    requires Shapes(s) && Hopeless(s) && s.cache.Shorten?
    ensures Hopeless(FillShort(s))
  {
    hide FullPkts, PktCount;
    if s.vpool == [] {
      var n := |s.inprog|;
      assert PktCount(s.inprog, Any) == n by { FullPktCount(s.inprog); }
      NoPktsHoldNothing(n, Any);
      assert FillShort(s).inprog == seq(n, _ => NO_PKT);
    }
  }

  lemma CacheKeepsHopeless(s: State, t: Step)
    requires Shapes(s) && Hopeless(s) && Enabled(s, t) && Safe(s, t) && CacheStep(t)
    ensures Hopeless(Next(s, t))
  {
    hide FillShort, DispatchAll, Bodies, PktCount, FullVecs, FullPkts, Slots, PktSlots, SlotsFilled;
    assert PktCount([], Any) == 0 by { NoneCounted(Any); }
    match t
    case CDeassign =>
      if s.vpool == [] { NoBodiesCounted(s.inprog); }
      assert s.vpool == [] ==> s.vpool + Bodies(s.inprog) == [];
    case CSwap => assert PktCount(s.pending, Any) == |s.pending| by { FullPktCount(s.pending); }
    case CShorten => ShortenKeepsHopeless(s);
    case _ =>
  }

  lemma OthersKeepHopeless(s: State, t: Step)
    requires Hopeless(s) && Enabled(s, t) && Safe(s, t) && !CacheStep(t) && !t.StopRx?
    ensures Hopeless(Next(s, t))
  {
    hide Bodies, PktCount, AtHead, AfterReceive;
  }

  lemma {:induction false} PathKeepsHopeless(s: State, ts: seq<Step>, t: State)
    requires Shapes(s) && Hopeless(s) && Path(s, ts, t) && NoStop(ts)
    ensures Hopeless(t)
    decreases |ts|
  {
    hide Shapes, Hopeless, Enabled, Safe, Next;
    if ts != [] {
      if CacheStep(ts[0]) { CacheKeepsHopeless(s, ts[0]); } else { OthersKeepHopeless(s, ts[0]); }
      NextKeepsBuffers(s, ts[0], Any);
      PathKeepsHopeless(Next(s, ts[0]), ts[1..], t);
    }
  }

  /** When both workers wait the receive worker can be helped only by waking the cache worker
      for no new packets, and exactly if the pool is empty and more packets are pending than
      fit into shortBuf. */
  lemma ResumesIff(s: State)
    requires Shapes(s) && Deadlocked(s)
    ensures Resumes(s) <==> s.vpool == [] && |s.pending| > s.shortLimit - |s.shortBuf|
  {
    hide Path, Shapes, NoStop;
    if s.vpool == [] && |s.pending| > s.shortLimit - |s.shortBuf| {
      var ts, t := NudgeRound(s);
      assert Path(s, ts, t) && NoStop(ts) && !t.rx.Stalled?;
    } else if Resumes(s) {
      var ts: seq<Step>, t: State :| Path(s, ts, t) && NoStop(ts) && !t.rx.Stalled?;
      assert Hopeless(s) by { IdleIsHopeless(s); }
      PathKeepsHopeless(s, ts, t);
    }
  }

  lemma IdleIsHopeless(s: State)
    requires Shapes(s) && Deadlocked(s) && (s.vpool != [] || |s.pending| <= s.shortLimit - |s.shortBuf|)
    ensures Hopeless(s)
  {
  }

  /** A record support request wakes the cache worker, which takes the pending packets, has
      some of them left to give back, and signals. */
  lemma NudgeRound(s: State) returns (ts: seq<Step>, t: State)
    requires Shapes(s) && Deadlocked(s) && s.vpool == [] && |s.pending| > s.shortLimit - |s.shortBuf|
    ensures Path(s, ts, t) && NoStop(ts) && t.rx.Head?
  {
    hide Path, Bodies, FullVecs, FullPkts, Slots, PktSlots, SlotsFilled, DispatchAll;
    var a := Next(s, Nudge);
    OneStep(s, Nudge);
    SixSteps(a);
    PathAppend(s, [Nudge], a, CACHE_STEPS, Cycled(a));
    var b := Cycled(a);
    assert b.cache.Unstall? by { SomeComeBack(a); }
    var c := Next(b, CUnstall);
    OneStep(b, CUnstall);
    PathAppend(s, [Nudge] + CACHE_STEPS, b, [CUnstall], c);
    t := Next(c, RxWake);
    OneStep(c, RxWake);
    ts := [Nudge] + CACHE_STEPS + [CUnstall] + [RxWake];
    PathAppend(s, [Nudge] + CACHE_STEPS + [CUnstall], c, [RxWake], t);
  }

  // ----- a datagram every buffer takes -----

  const GOOD := Datagram(true, Header(0, 0))
  const NOW := Time(0, 0)

  lemma GoodIsAccepted(v: Vec)
    requires v.Buf?
    ensures Accepts(v, GOOD)
  {
    HeaderInverse(0, 0, []);
    assert Header(0, 0) + [] == Header(0, 0);
  }

  /** n good datagrams move the buffers of slots i..n to pending and leave the slots empty. */
  lemma {:induction false} ReceiveGood(s: State, i: nat, n: nat)
    requires i <= n && SlotsFilled(s.msgs, i, n)
    ensures var ds := seq(n, _ => GOOD);
            SlotsFilled(s.msgs, i, |ds|) &&
            var r := ReceiveAll(s, i, ds, NOW);
            && OnlyReceived(s, r) && |r.msgs| == |s.msgs|
            && |r.pending| == |s.pending| + (n - i)
            && (i < n ==> r.msgs[i] == Empty && (r.notifycache <==> s.notifycache || s.pending == []))
            && (forall j :: 0 <= j < i ==> r.msgs[j] == s.msgs[j])
    decreases n - i
  {
    hide Accepts, Landed, Accepted;
    var ds := seq(n, _ => GOOD);
    if i < n {
      GoodIsAccepted(s.msgs[i]);
      var r := ReceiveOne(s, i, ds[i], NOW);
      ReceiveGood(r, i + 1, n);
      assert r.pending != [];
    }
  }

  lemma {:induction false} AssignFills(vpool: seq<Vec>, msgs: seq<Vec>, i: nat)
    requires i <= |msgs|
    ensures var a := Assign(vpool, msgs, i);
            && i <= a.nassign <= |msgs| && (a.nassign < |msgs| ==> a.vpool == [])
            && |a.vpool| <= |vpool|
            && (i < |msgs| && vpool != [] ==> a.nassign > i && (msgs[i] == Empty ==> |a.vpool| < |vpool|))
    decreases |msgs| - i
  {
    if i < |msgs| {
      if msgs[i] != Empty { AssignFills(vpool, msgs, i + 1); }
      else if vpool != [] { AssignFills(vpool[..|vpool| - 1], msgs[i := vpool[|vpool| - 1]], i + 1); }
    }
  }

  // ----- one round -----

  /** Quiet: rx is in recvmmsg with every buffer it could get, the cache worker waits, nothing
      is pending and nobody has been told anything. */
  ghost predicate Quiet(s: State) {
    && Shapes(s) && s.running && s.stop.NotStopped? && s.clearing == [] && !s.poked
    && s.rx.Receive? && 1 <= s.rx.nassign <= s.batchSize && (s.rx.nassign < s.batchSize ==> s.vpool == [])
    && s.cache.Wait? && s.pending == [] && !s.notifycache && !s.pendingReady && !s.vpoolStall
  }

  /** rx takes n good datagrams and either stalls or comes back to recvmmsg. */
  ghost function AfterGood(s: State, n: nat): State
    requires s.rx.Receive? && SlotsFilled(s.msgs, 0, n)
  {
    AfterReceive(s, seq(n, _ => GOOD), NOW)
  }

  lemma HeadGoesOn(s: State)
    requires s.running && s.msgs != [] && s.msgs[0] == Empty
    ensures var r := AtHead(s);
            && (s.vpool == [] ==> r == s.(rx := Stalled, noom := s.noom + 1))
            && (s.vpool != [] ==>
                  && r.rx.Notify? && 1 <= r.rx.nassign <= |s.msgs| && |r.vpool| < |s.vpool|
                  && (r.rx.nassign < |s.msgs| ==> r.vpool == [])
                  && r == s.(rx := r.rx, vpool := r.vpool, msgs := r.msgs))
  {
    hide Assign;
    AssignFills(s.vpool, s.msgs, 0);
  }

  lemma TakeGood(s: State, n: nat)
    requires Shapes(s) && s.running && s.rx.Receive? && 1 <= n <= s.rx.nassign
    ensures SlotsFilled(s.msgs, 0, n)
    ensures var r := AfterGood(s, n);
            && Path(s, [RxReceive(seq(n, _ => GOOD), NOW)], r) && Shapes(r)
            && |r.pending| == |s.pending| + n
            && (r.notifycache <==> s.notifycache || s.pending == [])
            && (s.vpool == [] ==> r.rx == Stalled && r.vpool == [])
            && (s.vpool != [] ==> r.rx.Notify? && 1 <= r.rx.nassign <= s.batchSize && |r.vpool| < |s.vpool|
                                  && (r.rx.nassign < s.batchSize ==> r.vpool == []))
            && SameElsewhere(s, r)
  {
    hide AtHead, FullVecs, FullPkts, Slots, PktSlots, ReceiveAll;
    var ds := seq(n, _ => GOOD);
    assert SlotsFilled(s.msgs, 0, n);
    var s0 := s.(rxcnt := s.rxcnt + n);
    ReceiveGood(s0, 0, n);
    HeadGoesOn(ReceiveAll(s0, 0, ds, NOW));
    AfterReceiveKeeps(s, ds, NOW, Any);
    OneStep(s, RxReceive(ds, NOW));
  }

  /** What the receive worker does not touch. */
  ghost predicate SameElsewhere(s: State, r: State) {
    && r.batchSize == s.batchSize && r.cache == s.cache && r.inprog == s.inprog
    && r.vpoolStall == s.vpoolStall && r.pendingReady == s.pendingReady && r.running == s.running && r.stop == s.stop
    && r.shortBuf == s.shortBuf && r.shortLimit == s.shortLimit && r.clearing == s.clearing && r.poked == s.poked
  }

  const CACHE_STEPS := [CWake, CSwap, CDispatch, CWrite, CShorten, CDeassign]

  ghost function Swapped(s: State): State {
    s.(pendingReady := false, inprog := s.pending, pending := [], cache := Dispatch)
  }
  ghost function Dispatched(s: State): State { DispatchInprog(Swapped(s)).(cache := Shorten) }
  ghost function Shortened(s: State): State
    requires |s.shortBuf| <= s.shortLimit
  {
    FillShort(Dispatched(s))
  }
  ghost function Cycled(s: State): State
    requires |s.shortBuf| <= s.shortLimit
  {
    ReturnBuffers(Shortened(s))
  }

  /** The cache worker has been round and waits again. */
  ghost predicate BeenRound(s: State, r: State)
    requires |s.shortBuf| <= s.shortLimit
  {
    && r.cache.Wait? && r.pending == [] && r.inprog == [] && !r.pendingReady
    && |r.shortBuf| == |s.shortBuf| + Min(|s.pending|, s.shortLimit - |s.shortBuf|)
    && (s.vpool != [] ==> r.vpool != [])
    && (|s.shortBuf| + |s.pending| <= s.shortLimit ==> r.vpool == s.vpool)
    && r.batchSize == s.batchSize && r.rx == s.rx && r.msgs == s.msgs && r.notifycache == s.notifycache
    && r.vpoolStall == s.vpoolStall && r.running == s.running && r.stop == s.stop
    && r.shortLimit == s.shortLimit && r.clearing == s.clearing && r.poked == s.poked
  }

  const ROUND := CACHE_STEPS + [CCheck]

  ghost function Rounded(s: State): State
    requires |s.shortBuf| <= s.shortLimit
  {
    Cycled(s).(cache := Wait)
  }

  /** The cache worker takes what is pending, all the way round to waiting again, without
      signalling vpoolStall: the pool was not empty, or nothing comes back to it. */
  lemma CacheCycle(s: State)
    requires Shapes(s) && s.running && s.cache.Wait? && s.pendingReady && s.pending != []
    requires s.vpool != [] || |s.shortBuf| + |s.pending| <= s.shortLimit
    ensures Path(s, ROUND, Rounded(s)) && NoClear(ROUND) && BeenRound(s, Rounded(s))
  {
    hide Path, Bodies, FullVecs, FullPkts, Slots, PktSlots, SlotsFilled, DispatchAll;
    if |s.shortBuf| + |s.pending| <= s.shortLimit { NoneComeBack(s); }
    SixSteps(s);
    var a := Cycled(s);
    OneStep(a, CCheck);
    PathAppend(s, CACHE_STEPS, a, [CCheck], Rounded(s));
  }

  lemma NoneComeBack(s: State)
    requires |s.shortBuf| + |s.pending| <= s.shortLimit
    ensures Cycled(s).vpool == s.vpool && Cycled(s).cache.Check?
  {
    hide DispatchAll, Bodies;
    var n := |s.pending|;
    assert Shortened(s).inprog == seq(n, _ => NO_PKT);
    NoPktBodies(n);
    assert s.vpool + [] == s.vpool;
  }

  /** What does not fit into shortBuf goes back to an empty pool. */
  lemma SomeComeBack(s: State)
    requires FullPkts(s.pending) && |s.shortBuf| <= s.shortLimit
    requires s.vpool == [] && |s.pending| > s.shortLimit - |s.shortBuf|
    ensures Cycled(s).cache.Unstall?
  {
    hide DispatchAll;
    var ps := Shortened(s).inprog;
    LastComesBack(ps);
  }

  lemma LastComesBack(ps: seq<Pkt>)
    requires ps != [] && ps[|ps| - 1].body != Empty
    ensures Bodies(ps) != []
  {
  }

  lemma {:induction false} NoPktBodies(n: nat)
    ensures Bodies(seq(n, _ => NO_PKT)) == []
  {
    if n > 0 {
      NoPktBodies(n - 1);
      assert seq(n, _ => NO_PKT)[..n - 1] == seq(n - 1, _ => NO_PKT);
    }
  }

  lemma SixSteps(s: State)
    requires Shapes(s) && s.cache.Wait? && s.pendingReady && s.pending != []
    ensures Path(s, CACHE_STEPS, Cycled(s))
  {
    hide DispatchAll, Bodies, Shapes, Min, Path, AtHead, AfterReceive;
    assert s.inprog == [] && |s.shortBuf| <= s.shortLimit by { IdleCache(s); }
    var a := s.(pendingReady := false, cache := Woken);
    var b := DispatchInprog(Swapped(s));
    OneStep(s, CWake);
    OneStep(a, CSwap);
    PathAppend(s, [CWake], a, [CSwap], Swapped(s));
    OneStep(Swapped(s), CDispatch);
    PathAppend(s, [CWake] + [CSwap], Swapped(s), [CDispatch], b);
    OneStep(b, CWrite);
    PathAppend(s, [CWake] + [CSwap] + [CDispatch], b, [CWrite], Dispatched(s));
    OneStep(Dispatched(s), CShorten);
    PathAppend(s, [CWake] + [CSwap] + [CDispatch] + [CWrite], Dispatched(s), [CShorten], Shortened(s));
    OneStep(Shortened(s), CDeassign);
    PathAppend(s, [CWake] + [CSwap] + [CDispatch] + [CWrite] + [CShorten], Shortened(s), [CDeassign], Cycled(s));
    assert [CWake] + [CSwap] + [CDispatch] + [CWrite] + [CShorten] + [CDeassign] == CACHE_STEPS;
  }

  lemma IdleCache(s: State)
    requires Shapes(s) && s.cache.Wait?
    ensures s.inprog == [] && |s.shortBuf| <= s.shortLimit
  {
  }

  lemma PathKeeps(s: State, ts: seq<Step>, t: State, w: Which)
    requires Shapes(s) && Path(s, ts, t)
    ensures Shapes(t) && (s.rx.RxDone? || !t.rx.RxDone? ==> Held(t, w) == Held(s, w)) && (s.rx.RxDone? ==> t.rx.RxDone?)
    decreases |ts|
  {
    hide Shapes, Held, Enabled, Safe, Next;
    if ts != [] {
      NextKeepsBuffers(s, ts[0], w);
      DoneIsFinal(s, ts[0]);
      PathKeeps(Next(s, ts[0]), ts[1..], t, w);
    }
  }

  // ----- filling shortBuf one packet at a time -----

  /** A receive timeout on an empty pool. */
  lemma StallNow(s: State) returns (ts: seq<Step>, t: State)
    requires Quiet(s) && s.vpool == []
    ensures Path(s, ts, t) && NoClear(ts) && Deadlocked(t) && t.shortLimit == s.shortLimit && t.pending == []
  {
    hide Path, ReceiveAll;
    assert SlotsFilled(s.msgs, 0, 0);
    t := AfterReceive(s, [], NOW);
    assert ReceiveAll(s.(rxcnt := s.rxcnt), 0, [], NOW) == s by { ReceiveNone(s); }
    ts := [RxReceive([], NOW)];
    OneStep(s, RxReceive([], NOW));
  }

  lemma ReceiveNone(s: State)
    ensures ReceiveAll(s, 0, [], NOW) == s
  {
  }

  /** One good datagram goes all the way into shortBuf, and all is quiet again. */
  lemma OneRound(s: State) returns (ts: seq<Step>, t: State)
    requires Quiet(s) && s.vpool != [] && |s.shortBuf| < s.shortLimit
    ensures Path(s, ts, t) && NoClear(ts) && Quiet(t)
    ensures t.shortLimit == s.shortLimit && t.batchSize == s.batchSize && |t.shortBuf| == |s.shortBuf| + 1
  {
    hide Shapes, Path, Rounded;
    TakeGood(s, 1) by { assert Shapes(s); }
    var a := AfterGood(s, 1);
    var b := Next(a, RxNotify);
    OneStep(a, RxNotify);
    PathAppend(s, [RxReceive(seq(1, _ => GOOD), NOW)], a, [RxNotify], b);
    var us := [RxReceive(seq(1, _ => GOOD), NOW)] + [RxNotify];
    PathKeeps(s, us, b, Any);
    CacheCycle(b);
    t := Rounded(b);
    PathAppend(s, us, b, ROUND, t);
    ts := us + ROUND;
    PathKeeps(s, ts, t, Any);
  }

  lemma {:induction false} FillThenStall(s: State, total: nat) returns (ts: seq<Step>, t: State)
    requires Quiet(s) && Held(s, Any) == total <= s.batchSize + s.shortLimit
    ensures Path(s, ts, t) && NoClear(ts) && Deadlocked(t) && t.shortLimit == s.shortLimit && t.pending == []
    decreases s.shortLimit - |s.shortBuf|
  {
    hide Shapes, Path, Held, NoClear, Deadlocked;
    if s.vpool == [] {
      ts, t := StallNow(s);
    } else {
      ShortHasRoom(s, total);
      var us, a := OneRound(s);
      assert Held(a, Any) == total && !a.rx.RxDone? by { PathKeeps(s, us, a, Any); }
      var vs;
      vs, t := FillThenStall(a, total);
      PathAppend(s, us, a, vs, t);
      ts := us + vs;
      NoClearAppend(us, vs);
    }
  }

  lemma NoClearAppend(a: seq<Step>, b: seq<Step>)
    requires NoClear(a) && NoClear(b)
    ensures NoClear(a + b)
  {
  }

  lemma {:induction false} FilledSlots(msgs: seq<Vec>, n: nat)
    requires SlotsFilled(msgs, 0, n)
    ensures Count(msgs, Any) >= n
    decreases |msgs|
  {
    if msgs != [] {
      FilledSlots(msgs[..|msgs| - 1], if n == |msgs| then n - 1 else n);
    }
  }

  lemma ShortHasRoom(s: State, total: nat)
    requires Quiet(s) && Held(s, Any) == total <= s.batchSize + s.shortLimit && s.vpool != []
    ensures |s.shortBuf| < s.shortLimit
  {
    FilledSlots(s.msgs, s.rx.nassign);
    FullCount(s.vpool);
    FullPktCount(s.shortBuf);
  }

  /** From the start to a quiet receive worker, with shortBuf's limit raised to limit. */
  lemma StartUp(s: State, total: nat, limit: nat) returns (ts: seq<Step>, t: State)
    requires Initial(s, total) && total > 0
    ensures Path(s, ts, t) && Quiet(t) && t.shortLimit == limit && t.batchSize == s.batchSize
    ensures t.shortBuf == [] && NoClear(ts)
  {
    hide Assign, Shapes, AfterReceive, DispatchInprog, FillShort, Path;
    assert Shapes(s) by { InitialHeld(s, total, Any); }
    var a := Next(s, RaiseLimit(limit));
    OneStep(s, RaiseLimit(limit));
    var b := Next(a, RxHead);
    OneStep(a, RxHead);
    PathAppend(s, [RaiseLimit(limit)], a, [RxHead], b);
    AssignFills(a.vpool, a.msgs, 0);
    var c := Next(b, RxNotify);
    OneStep(b, RxNotify);
    PathAppend(s, [RaiseLimit(limit)] + [RxHead], b, [RxNotify], c);
    var d := Next(c, CDeassign);
    OneStep(c, CDeassign);
    PathAppend(s, [RaiseLimit(limit)] + [RxHead] + [RxNotify], c, [CDeassign], d);
    NoBodies();
    assert c.vpool + [] == c.vpool;
    t := Next(d, CCheck);
    OneStep(d, CCheck);
    ts := [RaiseLimit(limit)] + [RxHead] + [RxNotify] + [CDeassign] + [CCheck];
    PathAppend(s, [RaiseLimit(limit)] + [RxHead] + [RxNotify] + [CDeassign], d, [CCheck], t);
    PathKeeps(s, ts, t, Any);
  }

  /** Without buffers both workers wait at once. */
  lemma EmptyPoolStalls(s: State, limit: nat) returns (ts: seq<Step>, t: State)
    requires Initial(s, 0)
    ensures Path(s, ts, t) && NoClear(ts) && Deadlocked(t) && t.shortLimit == limit && t.pending == []
  {
    hide Assign, Path;
    var a := Next(s, RaiseLimit(limit));
    OneStep(s, RaiseLimit(limit));
    var b := Next(a, RxHead);
    OneStep(a, RxHead);
    PathAppend(s, [RaiseLimit(limit)], a, [RxHead], b);
    NoBodies();
    var c := Next(b, CDeassign);
    OneStep(b, CDeassign);
    PathAppend(s, [RaiseLimit(limit)] + [RxHead], b, [CDeassign], c);
    t := Next(c, CCheck);
    OneStep(c, CCheck);
    ts := [RaiseLimit(limit)] + [RxHead] + [CDeassign] + [CCheck];
    PathAppend(s, [RaiseLimit(limit)] + [RxHead] + [CDeassign], c, [CCheck], t);
  }

  /** Some run from s, with Clear Short only if clear, leaves both workers waiting with
      shortBuf's limit at limit. */
  ghost predicate CanDeadlock(s: State, total: nat, limit: nat, clear: bool) {
    exists states: seq<State>, steps: seq<Step> :: DeadlockRun(s, total, limit, clear, states, steps)
  }

  /** ... and nothing but stop() can end that. */
  ghost predicate CanDeadlockForEver(s: State, total: nat, limit: nat, clear: bool) {
    exists states: seq<State>, steps: seq<Step> ::
      DeadlockRun(s, total, limit, clear, states, steps) && !Resumes(states[|steps|])
  }

  ghost predicate DeadlockRun(s: State, total: nat, limit: nat, clear: bool, states: seq<State>, steps: seq<Step>) {
    && IsRun(states, steps, total) && states[0] == s && (clear || NoClear(steps))
    && states[|steps|].shortLimit == limit && Deadlocked(states[|steps|])
  }

  lemma PathCanDeadlock(s: State, total: nat, limit: nat, clear: bool, ts: seq<Step>, t: State)
    requires Initial(s, total) && Path(s, ts, t) && (clear || NoClear(ts))
    requires t.shortLimit == limit && Deadlocked(t) && (t.vpool != [] || t.pending == [])
    ensures CanDeadlock(s, total, limit, clear) && CanDeadlockForEver(s, total, limit, clear)
  {
    hide Initial, Path, Deadlocked, NoClear, Shapes, Resumes;
    PathIsRun(s, ts, t, total);
    assert DeadlockRun(s, total, limit, clear, Trace(s, ts, t), ts);
    assert !Resumes(t) by { InitialHeld(s, total, Any); PathKeeps(s, ts, t, Any); LeftAlone(t); ResumesIff(t); }
  }

  lemma LeftAlone(s: State)
    requires Shapes(s) && (s.vpool != [] || s.pending == [])
    ensures s.vpool != [] || |s.pending| <= s.shortLimit - |s.shortBuf|
  {
  }

  lemma {:induction false} BatchSizeIsFixed(states: seq<State>, steps: seq<Step>, total: nat, k: nat)
    requires IsRun(states, steps, total) && k < |states|
    ensures states[k].batchSize == states[0].batchSize
  {
    hide Initial, Held, Shapes;
    if k > 0 {
      BatchSizeIsFixed(states, steps, total, k - 1);
      RunKeepsBuffers(states, steps, total, k - 1, Any);
      StepKeepsSizes(states[k - 1], steps[k - 1]);
    }
  }

  lemma StepKeepsSizes(s: State, t: Step)
    requires Enabled(s, t) && Safe(s, t)
    ensures Next(s, t).batchSize == s.batchSize && Next(s, t).shortLimit >= s.shortLimit
  {
    hide Enabled, Safe, Next;
    if RxStep(t) {
      RxStepTouches(s, t);
    } else if CacheStep(t) {
      CacheStepTouches(s, t);
    } else {
      OuterStepTouches(s, t);
    }
  }

  /** The bound is exact: without Clear Short, and with room for limit packets in shortBuf, both
      workers can end up waiting, and also for ever, if and only if the pool has no more buffers
      than one batch and shortBuf together. */
  lemma DeadlockIffPoolTooSmall(s: State, total: nat, limit: nat)
    requires Initial(s, total)
    ensures CanDeadlock(s, total, limit, false) <==> total <= s.batchSize + limit
    ensures CanDeadlockForEver(s, total, limit, false) <==> total <= s.batchSize + limit
  {
    hide Initial, Path, NoClear, Deadlocked, Resumes;
    if total <= s.batchSize + limit {
      SmallPoolDeadlocks(s, total, limit, false);
    } else if CanDeadlock(s, total, limit, false) {
      var states: seq<State>, steps: seq<Step> :| DeadlockRun(s, total, limit, false, states, steps);
      NoClearNoPokeAtEnd(states, steps, total);
      BatchSizeIsFixed(states, steps, total, |steps|);
      DeadlockFree(states, steps, total, |steps|);
    }
  }

  lemma SmallPoolDeadlocks(s: State, total: nat, limit: nat, clear: bool)
    requires Initial(s, total) && total <= s.batchSize + limit
    ensures CanDeadlock(s, total, limit, clear) && CanDeadlockForEver(s, total, limit, clear)
  {
    hide Initial, Path, NoClear, Deadlocked, IsRun, Resumes, CanDeadlock, CanDeadlockForEver;
    var ts, t;
    if total == 0 {
      ts, t := EmptyPoolStalls(s, limit);
    } else {
      var us, a := StartUp(s, total, limit);
      assert Held(a, Any) == total by { InitialHeld(s, total, Any); PathKeeps(s, us, a, Any); }
      var vs;
      vs, t := FillThenStall(a, total);
      ts := us + vs;
      PathAppend(s, us, a, vs, t);
      NoClearAppend(us, vs);
    }
    PathCanDeadlock(s, total, limit, clear, ts, t);
  }

  lemma NoClearNoPokeAtEnd(states: seq<State>, steps: seq<Step>, total: nat)
    requires IsRun(states, steps, total) && NoClear(steps)
    ensures Cleared(states[|steps|]) == [] && !states[|steps|].poked
  {
    NoClearNoPoke(states, steps, total, |steps|);
  }

  // ----- Clear Short during a stall -----

  /** rx takes everything the pool has while the cache worker is not scheduled, and stalls. */
  lemma {:induction false} DrainPool(s: State) returns (ts: seq<Step>, t: State)
    requires Shapes(s) && s.running && s.rx.Receive? && s.rx.nassign >= 1
    ensures Path(s, ts, t) && Shapes(t)
    ensures t.rx.Stalled? && t.vpool == [] && t.pending != [] && SameElsewhere(s, t.(pendingReady := s.pendingReady))
    ensures s.pendingReady ==> t.pendingReady
    decreases |s.vpool|
  {
    hide Shapes, Path;
    var n := s.rx.nassign;
    assert SlotsFilled(s.msgs, 0, n) by { ReceiveSlots(s); }
    TakeGood(s, n);
    var a, step := AfterGood(s, n), RxReceive(seq(n, _ => GOOD), NOW);
    if s.vpool == [] {
      ts, t := [step], a;
    } else {
      var b := Next(a, RxNotify);
      OneStep(a, RxNotify);
      PathAppend(s, [step], a, [RxNotify], b);
      PathKeeps(s, [step] + [RxNotify], b, Any);
      var us;
      us, t := DrainPool(b);
      ts := [step] + [RxNotify] + us;
      PathAppend(s, [step] + [RxNotify], b, us, t);
    }
  }

  lemma ReceiveSlots(s: State)
    requires Shapes(s) && s.rx.Receive?
    ensures SlotsFilled(s.msgs, 0, s.rx.nassign)
  {
  }

  /** Stalled on an empty pool, Clear Short gives shortBuf back, and nobody is told. */
  lemma ClearInStall(s: State) returns (ts: seq<Step>, t: State)
    requires Shapes(s) && s.rx.Stalled? && s.vpool == [] && s.shortBuf != [] && s.clearing == []
    ensures Path(s, ts, t) && Shapes(t)
    ensures t == s.(vpool := t.vpool, shortBuf := [], poked := true) && t.vpool != []
  {
    hide FullVecs, Slots, PktSlots, SlotsFilled, Bodies;
    var a := Next(s, ClearTake);
    OneStep(s, ClearTake);
    assert Safe(a, ClearReturn(0));
    t := Next(a, ClearReturn(0));
    OneStep(a, ClearReturn(0));
    ts := [ClearTake] + [ClearReturn(0)];
    PathAppend(s, [ClearTake], a, [ClearReturn(0)], t);
    PathKeeps(s, ts, t, Any);
    SomeBodies(s.shortBuf);
    assert [] + Bodies(s.shortBuf) == Bodies(s.shortBuf);
  }

  /** However large the pool: if shortBuf may hold anything, one Clear Short processed while the
      receive worker is stalled can leave both workers waiting for ever, with the pool's free
      buffers unused. */
  lemma ClearCanDeadlock(s: State, total: nat, limit: nat)
    requires Initial(s, total) && limit > 0 && total > s.batchSize + limit
    ensures exists states: seq<State>, steps: seq<Step> ::
              && DeadlockRun(s, total, limit, true, states, steps) && !Resumes(states[|steps|])
              && states[|steps|].vpool != [] && states[|steps|].clearing == []
  {
    hide Initial, Path, Shapes, Resumes, NoClear, Rounded;
    var us, a := StartUp(s, total, limit);
    assert a.vpool != [] by { InitialHeld(s, total, Any); PathKeeps(s, us, a, Any); PoolIsNotEmpty(a, total); }
    var vs, b := OneRound(a);
    PathAppend(s, us, a, vs, b);
    var ws, c := DrainPool(b);
    PathAppend(s, us + vs, b, ws, c);
    var xs, d := ClearInStall(c);
    PathAppend(s, us + vs + ws, c, xs, d);
    var ts, t := us + vs + ws + xs, d;
    if d.pendingReady {
      CacheCycle(d);
      t := Rounded(d);
      PathAppend(s, ts, d, ROUND, t);
      ts := ts + ROUND;
    }
    PathIsRun(s, ts, t, total);
    var states := Trace(s, ts, t);
    assert DeadlockRun(s, total, limit, true, states, ts) && states[|ts|] == t;
    assert !Resumes(t) by { InitialHeld(s, total, Any); PathKeeps(s, ts, t, Any); ResumesIff(t); }
  }

  lemma PoolIsNotEmpty(s: State, total: nat)
    requires Quiet(s) && s.shortBuf == [] && Held(s, Any) == total > s.batchSize
    ensures s.vpool != []
  {
    SlotCount(s.msgs);
  }

  // ----- with Clear Short -----

  lemma {:induction false} LimitWasZero(states: seq<State>, steps: seq<Step>, total: nat, k: nat, j: nat)
    requires IsRun(states, steps, total) && j <= k < |states| && states[k].shortLimit == 0
    ensures states[j].shortLimit == 0
    decreases k - j
  {
    hide Initial, Held, Shapes, Enabled, Next;
    if j < k {
      LimitWasZero(states, steps, total, k, j + 1);
      RunKeepsBuffers(states, steps, total, j, Any);
      StepKeepsSizes(states[j], steps[j]);
    }
  }

  /** With no room in shortBuf, Clear Short never has anything to give back. */
  lemma {:induction false} ClearFindsNothing(states: seq<State>, steps: seq<Step>, total: nat, k: nat)
    requires IsRun(states, steps, total) && k < |states| && states[k].shortLimit == 0
    ensures Cleared(states[k]) == [] && !states[k].poked
  {
    hide Held, Shapes;
    if k > 0 {
      LimitWasZero(states, steps, total, k, k - 1);
      ClearFindsNothing(states, steps, total, k - 1);
      RunKeepsBuffers(states, steps, total, k - 1, Any);
      assert states[k - 1].shortBuf == [] by { NoShort(states[k - 1]); }
      StepWithoutShort(states[k - 1], steps[k - 1]);
    }
  }

  lemma NoShort(s: State)
    requires Shapes(s) && s.shortLimit == 0
    ensures s.shortBuf == []
  {
  }

  lemma StepWithoutShort(s: State, t: Step)
    requires Enabled(s, t) && Safe(s, t) && s.shortBuf == [] && Cleared(s) == [] && !s.poked
    ensures Cleared(Next(s, t)) == [] && !Next(s, t).poked
  {
    if t.ClearTake? { FlattenSnoc(s.clearing, s.shortBuf); } else { StepWithoutClear(s, t); }
  }

  /** Over all runs, Clear Short included: both workers can end up waiting, and also for ever,
      if and only if shortBuf may hold anything or the pool is no larger than one batch. */
  lemma ClearDeadlockIff(s: State, total: nat, limit: nat)
    requires Initial(s, total)
    ensures CanDeadlock(s, total, limit, true) <==> limit > 0 || total <= s.batchSize
    ensures CanDeadlockForEver(s, total, limit, true) <==> limit > 0 || total <= s.batchSize
  {
    hide Initial, Deadlocked, Enabled, Safe, Next, Resumes;
    if total <= s.batchSize + limit {
      SmallPoolDeadlocks(s, total, limit, true);
    } else if limit > 0 {
      ClearCanDeadlock(s, total, limit);
    } else if CanDeadlock(s, total, limit, true) {
      var states: seq<State>, steps: seq<Step> :| DeadlockRun(s, total, limit, true, states, steps);
      ClearFindsNothing(states, steps, total, |steps|);
      BatchSizeIsFixed(states, steps, total, |steps|);
      DeadlockFree(states, steps, total, |steps|);
    }
  }
}

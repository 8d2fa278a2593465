/** Whether both workers can be waiting at once, and that stop() ends them both. */
module UdpFastProgress {
  import opened Chunks
  import opened UdpFastModel
  import opened UdpFastBuffers

  /** Both workers wait on events that are not set. */
  predicate Deadlocked(s: State) {
    s.rx.Stalled? && !s.vpoolStall && s.cache.Wait? && !s.pendingReady
  }

  predicate RxStep(t: Step) { t.RxHead? || t.RxWake? || t.RxNotify? || t.RxReceive? }

  predicate CacheStep(t: Step) {
    t.CDeassign? || t.CUnstall? || t.CCheck? || t.CWake? || t.CSwap? || t.CDispatch? || t.CWrite? || t.CShorten?
  }

  /** Who will wake whom.
      1. Packets are pending only if the cache worker has been, or is going to be, told.
      2. An untold notice while rx is not in recvmmsg is about packets of its last batch alone.
      3. A stalled rx has nothing in the pool to wait past, or is going to be told, or Clear
         Short put buffers back without telling it.
      4. stop() raises each event after clearing running. */
  ghost predicate Wakeups(s: State) {
    && (s.pending != [] ==> s.notifycache || s.pendingReady || s.cache.Woken?)
    && (s.rx.Receive? ==> !s.notifycache)
    && (s.notifycache && (s.rx.Head? || s.rx.Stalled?) ==> |s.pending| + Count(s.msgs, Any) <= s.batchSize)
    && (s.rx.Stalled? && !s.vpoolStall ==> s.vpool == [] || s.poked || s.cache.Unstall?)
    && (!s.stop.NotStopped? ==> !s.running)
    && (s.stop.RxSignalled? || s.stop.Signalled? ==> s.rx.Stalled? ==> s.vpoolStall)
    && (s.stop.Signalled? ==> s.cache.Wait? ==> s.pendingReady)
  }

  lemma HeadKeepsWakeups(s: State)
    requires Wakeups(s) && Shapes(s) && s.rx.Head?
    ensures Wakeups(AtHead(s))
  {
    hide Assign, Count, FullVecs, FullPkts, Slots, PktSlots, SlotsFilled, Flatten;
    assert Count([], Any) == 0 by { NoneCounted(Any); }
  }

  lemma {:induction false} ReceiveAllNotice(s: State, i: nat, ds: seq<Datagram>, now: Time)
    requires i <= |ds| && SlotsFilled(s.msgs, i, |ds|)
    ensures var r := ReceiveAll(s, i, ds, now);
            && |s.pending| <= |r.pending|
            && (r.notifycache ==> s.notifycache || s.pending == [])
            && (r.pending != [] ==> s.pending != [] || r.notifycache)
            && (s.notifycache ==> r.notifycache)
    decreases |ds| - i
  {
    hide Accepts, Landed, Accepted;
    if i < |ds| { ReceiveAllNotice(ReceiveOne(s, i, ds[i], now), i + 1, ds, now); }
  }

  lemma ReceiveKeepsWakeups(s: State, ds: seq<Datagram>, now: Time)
    requires Wakeups(s) && Shapes(s) && s.rx.Receive? && SlotsFilled(s.msgs, 0, |ds|)
    ensures Wakeups(AfterReceive(s, ds, now))
  {
    hide ReceiveAll, AtHead, Count, PktCount, FullVecs, FullPkts, Slots, PktSlots;
    var s0 := s.(rxcnt := s.rxcnt + |ds|);
    ReceiveAllNotice(s0, 0, ds, now);
    ReceiveAllKeeps(s0, 0, ds, now, Any);
    var s1 := ReceiveAll(s0, 0, ds, now);
    FullPktCount(s.pending);
    FullPktCount(s1.pending);
    SlotCount(s.msgs);
    HeadIgnoresPc(s1);
    HeadKeepsWakeups(s1.(rx := Head));
  }

  lemma ReturnKeepsWakeups(s: State)
    requires Wakeups(s) && s.cache.Deassign?
    ensures Wakeups(ReturnBuffers(s))
  {
    hide Bodies, Count;
    assert s.inprog == [] ==> Bodies(s.inprog) == [] by { NoBodies(); }
    assert s.vpool == [] ==> s.vpool + Bodies(s.inprog) == Bodies(s.inprog);
  }

  lemma NoBodies()
    ensures Bodies([]) == []
  {
  }

  lemma {:induction false} SomeBodies(ps: seq<Pkt>)
    requires FullPkts(ps) && ps != []
    ensures Bodies(ps) != []
  {
    FullBodies(ps);
  }

  lemma CacheStepsKeepWakeups(s: State, t: Step)
    requires Wakeups(s) && Shapes(s) && Enabled(s, t) && Safe(s, t) && CacheStep(t) && !t.CDeassign?
    ensures Wakeups(Next(s, t))
  {
    hide FillShort, DispatchInprog, Bodies, Count, PktCount, FullVecs, FullPkts, Slots, PktSlots, SlotsFilled;
    match t
    case CShorten => ShortenKeepsWakeups(s);
    case CDispatch => DispatchKeepsWakeups(s);
    case _ =>
  }

  lemma ShortenKeepsWakeups(s: State)
    requires Wakeups(s) && s.cache.Shorten? && |s.shortBuf| <= s.shortLimit
    ensures Wakeups(FillShort(s))
  {
    hide Count;
  }

  lemma DispatchKeepsWakeups(s: State)
    requires Wakeups(s) && s.cache.Dispatch?
    ensures Wakeups(DispatchInprog(s))
  {
    hide Count, DispatchAll;
  }

  lemma OtherStepsKeepWakeups(s: State, t: Step)
    requires Wakeups(s) && Enabled(s, t) && Safe(s, t)
    requires !t.RxHead? && !t.RxReceive? && !CacheStep(t)
    ensures Wakeups(Next(s, t))
  {
    hide Bodies, Count;
    if t.ClearReturn? && s.clearing[t.i] == [] { NoBodies(); }
  }

  lemma NextKeepsWakeups(s: State, t: Step)
    requires Wakeups(s) && Shapes(s) && Enabled(s, t) && Safe(s, t)
    ensures Wakeups(Next(s, t))
  {
    hide Wakeups, Shapes, AtHead, AfterReceive, ReturnBuffers;
    match t
    case RxHead => assert Wakeups(AtHead(s)) by { HeadKeepsWakeups(s); }
    case RxReceive(ds, now) => ReceiveKeepsWakeups(s, ds, now);
    case CDeassign => ReturnKeepsWakeups(s);
    case _ => if CacheStep(t) { CacheStepsKeepWakeups(s, t); } else { OtherStepsKeepWakeups(s, t); }
  }

  lemma {:induction false} RunKeepsWakeups(states: seq<State>, steps: seq<Step>, total: nat, k: nat)
    requires IsRun(states, steps, total) && k < |states|
    ensures Wakeups(states[k])
  {
    hide Next, Safe, Enabled, Held, Shapes, Wakeups;
    if k == 0 {
      assert Wakeups(states[0]) by { InitialWakeups(states[0], total); }
    } else {
      RunKeepsWakeups(states, steps, total, k - 1);
      RunKeepsBuffers(states, steps, total, k - 1, Any);
      NextKeepsWakeups(states[k - 1], steps[k - 1]);
    }
  }

  lemma InitialWakeups(s: State, total: nat)
    requires Initial(s, total)
    ensures Wakeups(s)
  {
  }

  /** What it takes for both workers to wait: the receive slots and one batch hold at most
      batchSize buffers, so all the others are in shortBuf, with Clear Short, or in a pool that
      Clear Short has refilled during the stall. */
  lemma DeadlockNeeds(states: seq<State>, steps: seq<Step>, total: nat, k: nat)
    requires IsRun(states, steps, total) && k < |states| && Deadlocked(states[k])
    ensures var s := states[k];
            && total <= s.batchSize + |s.shortBuf| + |Cleared(s)| + |s.vpool|
            && (s.vpool == [] || s.poked)
            && |s.shortBuf| <= s.shortLimit
  {
    hide Next, Safe, Enabled, Initial;
    var s := states[k];
    RunKeepsWakeups(states, steps, total, k);
    RunKeepsBuffers(states, steps, total, k, Any);
    FullCount(s.vpool);
    FullPktCount(s.pending);
    FullPktCount(s.shortBuf);
    FullPktCount(Cleared(s));
    SlotCount(s.msgs);
    assert PktCount(s.inprog, Any) == 0;
  }

  /** Deadlock freedom: with more buffers than one batch and shortBuf can take up, and no Clear
      Short holding some or having given some back during the stall, some worker can go on. */
  lemma DeadlockFree(states: seq<State>, steps: seq<Step>, total: nat, k: nat)
    requires IsRun(states, steps, total) && k < |states|
    requires total > states[k].batchSize + states[k].shortLimit
    requires Cleared(states[k]) == [] && !states[k].poked
    ensures !Deadlocked(states[k])
  {
    if Deadlocked(states[k]) { DeadlockNeeds(states, steps, total, k); }
  }

  /** A run in which Clear Short is never processed meets those two conditions throughout. */
  lemma {:induction false} NoClearNoPoke(states: seq<State>, steps: seq<Step>, total: nat, k: nat)
    requires IsRun(states, steps, total) && k < |states|
    requires forall i :: 0 <= i < |steps| ==> !steps[i].ClearTake?
    ensures Cleared(states[k]) == [] && !states[k].poked
  {
    hide Held, Shapes;
    if k > 0 {
      NoClearNoPoke(states, steps, total, k - 1);
      RunKeepsBuffers(states, steps, total, k - 1, Any);
      StepWithoutClear(states[k - 1], steps[k - 1]);
    }
  }

  lemma StepWithoutClear(s: State, t: Step)
    requires Enabled(s, t) && Safe(s, t) && Cleared(s) == [] && !s.poked && !t.ClearTake?
    ensures Cleared(Next(s, t)) == [] && !Next(s, t).poked
  {
    hide Flatten, Next, Enabled, Safe;
    if RxStep(t) {
      RxStepTouches(s, t);
    } else if CacheStep(t) {
      CacheStepTouches(s, t);
    } else {
      assert Cleared(Next(s, t)) == [] && !Next(s, t).poked by { OuterWithoutClear(s, t); }
    }
  }

  lemma OuterWithoutClear(s: State, t: Step)
    requires Enabled(s, t) && Safe(s, t) && Cleared(s) == [] && !s.poked
    requires !RxStep(t) && !CacheStep(t) && !t.ClearTake?
    ensures Cleared(Next(s, t)) == [] && !Next(s, t).poked
  {
    hide Flatten;
    if t.ClearReturn? { FlattenWithout(s.clearing, t.i); }
  }

  // ----- what a step leaves alone -----

  /** What no step of a worker changes. */
  ghost predicate OutsideKept(s: State, r: State) {
    && r.batchSize == s.batchSize && r.shortLimit == s.shortLimit && r.clearing == s.clearing
    && r.running == s.running && r.stop == s.stop && (r.poked ==> s.poked)
  }

  lemma HeadTouches(s: State)
    ensures var r := AtHead(s); OutsideKept(s, r) && r.cache == s.cache && (r.rx.RxDone? <==> !s.running)
  {
    hide Assign;
  }

  lemma AfterReceiveTouches(s: State, ds: seq<Datagram>, now: Time)
    requires SlotsFilled(s.msgs, 0, |ds|)
    ensures var r := AfterReceive(s, ds, now); OutsideKept(s, r) && r.cache == s.cache && (r.rx.RxDone? <==> !s.running)
  {
    hide AtHead, ReceiveAll;
    var s0 := s.(rxcnt := s.rxcnt + |ds|);
    ReceiveAllTouches(s0, 0, ds, now);
    HeadTouches(ReceiveAll(s0, 0, ds, now));
  }

  lemma ReturnTouches(s: State)
    ensures var r := ReturnBuffers(s); OutsideKept(s, r) && r.rx == s.rx && (r.cache.Unstall? || r.cache.Check?)
  {
    hide Bodies;
  }

  lemma DispatchTouches(s: State)
    ensures var r := DispatchInprog(s); OutsideKept(s, r) && r.rx == s.rx && (r.cache.Deassign? || r.cache.Write?)
  {
    hide DispatchAll;
  }

  lemma ShortenTouches(s: State)
    requires |s.shortBuf| <= s.shortLimit
    ensures var r := FillShort(s); OutsideKept(s, r) && r.rx == s.rx && r.cache.Deassign?
  {
  }

  lemma RxStepTouches(s: State, t: Step)
    requires Enabled(s, t) && Safe(s, t) && RxStep(t)
    ensures var r := Next(s, t); OutsideKept(s, r) && r.cache == s.cache && (!s.running ==> RxLeft(r.rx) < RxLeft(s.rx))
  {
    hide AtHead, AfterReceive;
    match t
    case RxHead => HeadTouches(s);
    case RxReceive(ds, now) => AfterReceiveTouches(s, ds, now);
    case _ =>
  }

  lemma CacheStepTouches(s: State, t: Step)
    requires Enabled(s, t) && Safe(s, t) && CacheStep(t)
    ensures var r := Next(s, t);
            OutsideKept(s, r) && r.rx == s.rx && (!s.running ==> CacheLeft(r.cache) < CacheLeft(s.cache))
  {
    hide ReturnBuffers, DispatchInprog, FillShort;
    match t
    case CDeassign => ReturnTouches(s);
    case CDispatch => DispatchTouches(s);
    case CShorten => ShortenTouches(s);
    case _ =>
  }

  lemma OuterStepTouches(s: State, t: Step)
    requires Enabled(s, t) && Safe(s, t) && !RxStep(t) && !CacheStep(t)
    ensures var r := Next(s, t);
            && r.batchSize == s.batchSize && r.shortLimit >= s.shortLimit && r.rx == s.rx && r.cache == s.cache
            && (r.running ==> s.running) && (s.stop.Signalled? ==> r.stop.Signalled?)
  {
    hide ClearReturned;
    if t.ClearReturn? { ClearTouches(s, t.i); }
  }

  lemma ClearTouches(s: State, i: nat)
    requires i < |s.clearing|
    ensures var r := ClearReturned(s, i);
            && r.batchSize == s.batchSize && r.shortLimit == s.shortLimit && r.rx == s.rx && r.cache == s.cache
            && r.running == s.running && r.stop == s.stop
  {
    hide Bodies;
  }

  lemma {:induction false} ReceiveAllTouches(s: State, i: nat, ds: seq<Datagram>, now: Time)
    requires i <= |ds| && SlotsFilled(s.msgs, i, |ds|)
    ensures OnlyReceived(s, ReceiveAll(s, i, ds, now))
    decreases |ds| - i
  {
    hide Accepts, Landed, Accepted;
    if i < |ds| { ReceiveAllTouches(ReceiveOne(s, i, ds[i], now), i + 1, ds, now); }
  }

  // ----- stop() -----

  /** Once stop() has raised both events, neither worker is left waiting for one. */
  lemma StopWakesBoth(states: seq<State>, steps: seq<Step>, total: nat, k: nat)
    requires IsRun(states, steps, total) && k < |states| && states[k].stop.Signalled?
    ensures states[k].rx.Stalled? ==> Enabled(states[k], RxWake)
    ensures states[k].cache.Wait? ==> Enabled(states[k], CWake)
  {
    RunKeepsWakeups(states, steps, total, k);
  }

  /** How many steps a worker still takes at most once running is false. */
  function RxLeft(pc: RxPc): nat {
    match pc
    case Notify(_) | Stalled => 2
    case Head | Receive(_) => 1
    case RxDone => 0
  }

  function CacheLeft(pc: CachePc): nat {
    match pc
    case Wait => 8
    case Woken => 7
    case Dispatch => 6
    case Write => 5
    case Shorten => 4
    case Deassign => 3
    case Unstall => 2
    case Check => 1
    case CacheDone => 0
  }

  lemma StepsGoDown(s: State, t: Step)
    requires Enabled(s, t) && Safe(s, t) && !s.running
    ensures var r := Next(s, t);
            && !r.running && (s.stop.Signalled? ==> r.stop.Signalled?)
            && RxLeft(r.rx) + (if RxStep(t) then 1 else 0) <= RxLeft(s.rx)
            && CacheLeft(r.cache) + (if CacheStep(t) then 1 else 0) <= CacheLeft(s.cache)
  {
    hide Enabled, Safe, Next, RxLeft, CacheLeft;
    if RxStep(t) {
      RxStepTouches(s, t);
    } else if CacheStep(t) {
      CacheStepTouches(s, t);
    } else {
      OuterStepTouches(s, t);
    }
  }

  function RxSteps(ts: seq<Step>): nat {
    if ts == [] then 0 else RxSteps(ts[..|ts| - 1]) + (if RxStep(ts[|ts| - 1]) then 1 else 0)
  }

  function CacheSteps(ts: seq<Step>): nat {
    if ts == [] then 0 else CacheSteps(ts[..|ts| - 1]) + (if CacheStep(ts[|ts| - 1]) then 1 else 0)
  }

  lemma {:induction false} StepsAfterStop(states: seq<State>, steps: seq<Step>, total: nat, k: nat, j: nat)
    requires IsRun(states, steps, total) && k <= j < |states| && !states[k].running
    ensures var s := states[j];
            && !s.running && (states[k].stop.Signalled? ==> s.stop.Signalled?)
            && RxSteps(steps[k..j]) + RxLeft(s.rx) <= RxLeft(states[k].rx)
            && CacheSteps(steps[k..j]) + CacheLeft(s.cache) <= CacheLeft(states[k].cache)
    decreases j
  {
    hide Initial, Enabled, Safe, Next, Held, Shapes, RxStep, CacheStep, RxLeft, CacheLeft;
    if k < j {
      StepsAfterStop(states, steps, total, k, j - 1);
      RunKeepsBuffers(states, steps, total, j - 1, Any);
      StepsGoDown(states[j - 1], steps[j - 1]);
      assert steps[k..j][..j - k - 1] == steps[k..j - 1];
    }
  }

  /** stop() ends both workers: after it raised the events the receive worker takes at most 2
      more steps and the cache worker at most 8, whatever else happens, and at any moment each
      of them has finished or can take its next one. */
  lemma StopEndsBoth(states: seq<State>, steps: seq<Step>, total: nat, k: nat, j: nat)
    requires IsRun(states, steps, total) && k <= j < |states| && states[k].stop.Signalled?
    ensures RxSteps(steps[k..j]) <= 2 && CacheSteps(steps[k..j]) <= 8
    ensures states[j].rx.RxDone? || exists t :: RxStep(t) && Enabled(states[j], t) && Safe(states[j], t)
    ensures states[j].cache.CacheDone? || exists t :: CacheStep(t) && Enabled(states[j], t) && Safe(states[j], t)
  {
    hide Initial, Next, Held;
    RunKeepsWakeups(states, steps, total, k);
    StepsAfterStop(states, steps, total, k, j);
    StopWakesBoth(states, steps, total, j);
    RunKeepsBuffers(states, steps, total, j, Any);
    CanGoOn(states[j]);
  }

  lemma CanGoOn(s: State)
    requires Shapes(s) && (s.rx.Stalled? ==> s.vpoolStall) && (s.cache.Wait? ==> s.pendingReady)
    ensures s.rx.RxDone? || exists t :: RxStep(t) && Enabled(s, t) && Safe(s, t)
    ensures s.cache.CacheDone? || exists t :: CacheStep(t) && Enabled(s, t) && Safe(s, t)
  {
    var r := match s.rx
      case Stalled => RxWake
      case Notify(_) => RxNotify
      case Receive(_) => RxReceive([], Time(0, 0))
      case _ => RxHead;
    assert s.rx.RxDone? || (RxStep(r) && Enabled(s, r) && Safe(s, r));
    var c := match s.cache
      case Wait => CWake
      case Woken => CSwap
      case Dispatch => CDispatch
      case Write => CWrite
      case Shorten => CShorten
      case Deassign => CDeassign
      case Unstall => CUnstall
      case _ => CCheck;
    assert s.cache.CacheDone? || (CacheStep(c) && Enabled(s, c) && Safe(s, c));
  }
}

/** The two events, the counters, and the order in which buffers are taken, as the steps of a
    run alone determine them. */
module UdpFastSignals {
  import opened UdpFastModel
  import opened UdpFastBuffers
  import opened UdpFastProgress

  // ----- the events -----

  /** vpoolStall was raised since the receive worker last woke up. */
  function StallRaised(steps: seq<Step>): bool {
    steps != [] &&
    match steps[|steps| - 1]
    case CUnstall => true
    case StopRx => true
    case RxWake => false
    case _ => StallRaised(steps[..|steps| - 1])
  }

  /** pendingReady was raised since the cache worker last woke up: for packets that were accepted
      into an empty list, by record support, or by stop(). */
  ghost function ReadyRaised(states: seq<State>, steps: seq<Step>, k: nat): bool
    requires k <= |steps| && |states| == |steps| + 1
  {
    k > 0 &&
    match steps[k - 1]
    case RxNotify => states[k - 1].notifycache || ReadyRaised(states, steps, k - 1)
    case Nudge => true
    case StopCache => true
    case CWake => false
    case _ => ReadyRaised(states, steps, k - 1)
  }

  // ----- the counters -----

  /** How many datagrams were received. */
  function Datagrams(steps: seq<Step>): nat {
    if steps == [] then 0
    else Datagrams(steps[..|steps| - 1]) + (if steps[|steps| - 1].RxReceive? then |steps[|steps| - 1].ds| else 0)
  }

  /** How often the receive worker came to its loop's head, running, and found the pool empty. */
  ghost function EmptyPools(states: seq<State>, steps: seq<Step>, k: nat): nat
    requires k <= |steps| && |states| == |steps| + 1
  {
    if k == 0 then 0
    else
      var s, t := states[k - 1], steps[k - 1];
      EmptyPools(states, steps, k - 1) +
      (if (t.RxHead? || t.RxReceive?) && s.running && s.vpool == [] then 1 else 0)
  }

  lemma HeadCounts(s: State)
    ensures var r := AtHead(s);
            && r.vpoolStall == s.vpoolStall && r.pendingReady == s.pendingReady && r.rxcnt == s.rxcnt
            && r.noom == s.noom + (if s.running && s.vpool == [] then 1 else 0)
  {
    hide Assign;
  }

  lemma ReceiveCounts(s: State, ds: seq<Datagram>, now: Time)
    requires SlotsFilled(s.msgs, 0, |ds|)
    ensures var r := AfterReceive(s, ds, now);
            && r.vpoolStall == s.vpoolStall && r.pendingReady == s.pendingReady && r.rxcnt == s.rxcnt + |ds|
            && r.noom == s.noom + (if s.running && s.vpool == [] then 1 else 0)
  {
    hide AtHead, ReceiveAll;
    var s0 := s.(rxcnt := s.rxcnt + |ds|);
    ReceiveAllTouches(s0, 0, ds, now);
    HeadCounts(ReceiveAll(s0, 0, ds, now));
  }

  lemma RxStepCounts(s: State, t: Step)
    requires Enabled(s, t) && Safe(s, t) && RxStep(t)
    ensures var r := Next(s, t);
            && r.vpoolStall == (s.vpoolStall && !t.RxWake?)
            && r.pendingReady == (s.pendingReady || (t.RxNotify? && s.notifycache))
            && r.rxcnt == s.rxcnt + (if t.RxReceive? then |t.ds| else 0)
            && r.noom == s.noom + (if !t.RxWake? && !t.RxNotify? && s.running && s.vpool == [] then 1 else 0)
  {
    hide AtHead, AfterReceive;
    match t
    case RxHead => HeadCounts(s);
    case RxReceive(ds, now) => ReceiveCounts(s, ds, now);
    case _ =>
  }

  /** Neither an event nor a counter changes. */
  predicate CountsKept(s: State, r: State) {
    r.vpoolStall == s.vpoolStall && r.pendingReady == s.pendingReady && r.rxcnt == s.rxcnt && r.noom == s.noom
  }

  lemma ReturnCounts(s: State)
    ensures CountsKept(s, ReturnBuffers(s))
  {
    hide Bodies;
  }

  lemma DispatchCounts(s: State)
    ensures CountsKept(s, DispatchInprog(s))
  {
    hide DispatchAll;
  }

  lemma ShortenCounts(s: State)
    requires |s.shortBuf| <= s.shortLimit
    ensures CountsKept(s, FillShort(s))
  {
  }

  lemma ClearCounts(s: State, i: nat)
    requires i < |s.clearing|
    ensures CountsKept(s, ClearReturned(s, i))
  {
    hide Bodies;
  }

  lemma OtherStepCounts(s: State, t: Step)
    requires Enabled(s, t) && Safe(s, t) && !RxStep(t)
    ensures var r := Next(s, t);
            && r.vpoolStall == (s.vpoolStall || t.CUnstall? || t.StopRx?)
            && r.pendingReady == ((s.pendingReady && !t.CWake?) || t.Nudge? || t.StopCache?)
            && r.rxcnt == s.rxcnt && r.noom == s.noom
  {
    hide AtHead, AfterReceive, ReturnBuffers, DispatchInprog, FillShort, ClearReturned;
    match t
    case CDeassign => ReturnCounts(s);
    case CDispatch => DispatchCounts(s);
    case CShorten => ShortenCounts(s);
    case ClearReturn(i) => ClearCounts(s, i);
    case _ =>
  }

  /** In every state of every run: an event is set exactly if it was raised since its worker last
      woke up, every datagram is counted, and every time the pool was found empty. */
  lemma {:induction false} StepsDecideSignals(states: seq<State>, steps: seq<Step>, total: nat, k: nat)
    requires IsRun(states, steps, total) && k < |states|
    ensures var s := states[k];
            && s.vpoolStall == StallRaised(steps[..k]) && s.pendingReady == ReadyRaised(states, steps, k)
            && s.rxcnt == Datagrams(steps[..k]) && s.noom == EmptyPools(states, steps, k)
  {
    hide Initial, Next, Enabled, Held, Shapes;
    if k == 0 {
      assert states[0].rxcnt == 0 && states[0].noom == 0 && !states[0].vpoolStall && !states[0].pendingReady by {
        InitialCounts(states[0], total);
      }
    } else {
      var s, t := states[k - 1], steps[k - 1];
      StepsDecideSignals(states, steps, total, k - 1);
      RunKeepsBuffers(states, steps, total, k - 1, Any);
      assert steps[..k][..k - 1] == steps[..k - 1];
      if RxStep(t) { RxStepCounts(s, t); } else { OtherStepCounts(s, t); }
    }
  }

  lemma InitialCounts(s: State, total: nat)
    requires Initial(s, total)
    ensures s.rxcnt == 0 && s.noom == 0 && !s.vpoolStall && !s.pendingReady
  {
  }

  // ----- the order in which buffers are taken -----

  /** How many of the first slots are empty. */
  function EmptySlots(msgs: seq<Vec>): nat {
    if msgs == [] then 0 else EmptySlots(msgs[..|msgs| - 1]) + (if msgs[|msgs| - 1] == Empty then 1 else 0)
  }

  lemma EmptySlotsMore(msgs: seq<Vec>, i: nat)
    requires i < |msgs|
    ensures EmptySlots(msgs[..i + 1]) == EmptySlots(msgs[..i]) + (if msgs[i] == Empty then 1 else 0)
  {
    assert msgs[..i + 1][..i] == msgs[..i];
  }

  lemma {:induction false} AssignFromBack(was: seq<Vec>, msgs0: seq<Vec>, vpool: seq<Vec>, msgs: seq<Vec>, i: nat)
    requires i <= |msgs| == |msgs0| && (forall j :: i <= j < |msgs| ==> msgs[j] == msgs0[j])
    requires var n := EmptySlots(msgs0[..i]); n <= |was| && vpool == was[..|was| - n]
    requires FilledFromBack(was, msgs0, msgs, i)
    ensures var a := Assign(vpool, msgs, i);
            && i <= a.nassign <= |msgs| == |a.msgs|
            && EmptySlots(msgs0[..a.nassign]) <= |was| && a.vpool == was[..|was| - EmptySlots(msgs0[..a.nassign])]
            && FilledFromBack(was, msgs0, a.msgs, a.nassign)
            && (forall j :: a.nassign <= j < |msgs| ==> a.msgs[j] == msgs0[j])
            && (a.nassign < |msgs| ==> msgs0[a.nassign] == Empty && a.vpool == [])
    decreases |msgs| - i
  {
    hide EmptySlots;
    if i < |msgs| {
      EmptySlotsMore(msgs0, i);
      if msgs[i] != Empty {
        AssignFromBack(was, msgs0, vpool, msgs, i + 1);
      } else if vpool != [] {
        AssignFromBack(was, msgs0, vpool[..|vpool| - 1], msgs[i := vpool[|vpool| - 1]], i + 1);
      }
    }
  }

  /** Of the first i slots, those that were empty got buffers from the back of the pool, one after
      the other, and the others kept theirs. */
  ghost predicate FilledFromBack(was: seq<Vec>, msgs0: seq<Vec>, msgs: seq<Vec>, i: nat) {
    && i <= |msgs| == |msgs0| && EmptySlots(msgs0[..i]) <= |was|
    && forall j :: 0 <= j < i ==>
         if msgs0[j] != Empty then msgs[j] == msgs0[j]
         else EmptySlots(msgs0[..j]) < |was| && msgs[j] == was[|was| - 1 - EmptySlots(msgs0[..j])]
  }

  /** Assigning: slot after slot, leftovers stay and empty slots get the last buffer of the pool,
      until one stays empty because the pool is. */
  lemma AssignedInOrder(vpool: seq<Vec>, msgs: seq<Vec>)
    ensures var a := Assign(vpool, msgs, 0);
            && a.nassign <= |msgs| == |a.msgs|
            && FilledFromBack(vpool, msgs, a.msgs, a.nassign)
            && a.vpool == vpool[..|vpool| - EmptySlots(msgs[..a.nassign])]
            && (forall j :: a.nassign <= j < |msgs| ==> a.msgs[j] == msgs[j])
            && (a.nassign < |msgs| ==> msgs[a.nassign] == Empty && a.vpool == [])
  {
    assert EmptySlots(msgs[..0]) == 0;
    assert vpool[..|vpool|] == vpool;
    AssignFromBack(vpool, msgs, vpool, msgs, 0);
  }
}

/** The short buffer: which packets record support finds in it. */
module UdpFastShort {
  import opened Chunks
  import opened UdpFastModel
  import opened UdpFastBuffers
  import opened UdpFastProgress

  /** a is what is left of b when some packets are taken out. */
  ghost predicate Within(a: seq<Pkt>, b: seq<Pkt>)
    decreases |b|
  {
    a == [] ||
    (b != [] &&
     ((a[|a| - 1] == b[|b| - 1] && Within(a[..|a| - 1], b[..|b| - 1])) || Within(a, b[..|b| - 1])))
  }

  lemma {:induction false} WithinFront(a: seq<Pkt>, b: seq<Pkt>, x: seq<Pkt>)
    requires Within(a, b)
    ensures Within(a + x, b + x)
    decreases |x|
  {
    if x == [] {
      assert a + x == a && b + x == b;
    } else {
      var x' := x[..|x| - 1];
      WithinFront(a, b, x');
      assert (a + x)[..|a + x| - 1] == a + x' && (b + x)[..|b + x| - 1] == b + x';
    }
  }

  lemma {:induction false} WithinMore(a: seq<Pkt>, b: seq<Pkt>, x: seq<Pkt>)
    requires Within(a, b)
    ensures Within(a, b + x)
    decreases |x|
  {
    if x == [] {
      assert b + x == b;
    } else {
      WithinMore(a, b, x[..|x| - 1]);
      assert (b + x)[..|b + x| - 1] == b + x[..|x| - 1];
    }
  }

  lemma WithinTaken(a: seq<Pkt>, b: seq<Pkt>, x: seq<Pkt>, n: nat)
    requires Within(a, b) && n <= |x|
    ensures Within(a + x[..n], b + x)
  {
    hide Within;
    WithinFront(a, b, x[..n]);
    WithinMore(a + x[..n], b + x[..n], x[n..]);
    assert b + x[..n] + x[n..] == b + x;
  }

  /** The batch that was dispatched last is still to go by the short buffer. */
  predicate Passing(s: State) { s.cache.Write? || s.cache.Shorten? }

  /** The dispatched packets that have gone by the short buffer. */
  function GoneBy(s: State): seq<Pkt> {
    if Passing(s) && |s.inprog| <= |s.dispatched| then s.dispatched[..|s.dispatched| - |s.inprog|] else s.dispatched
  }

  ghost predicate ShortInv(s: State) {
    && (Passing(s) ==> s.inprog != [] && s.dispatched == GoneBy(s) + s.inprog)
    && Within(s.shortBuf, GoneBy(s))
  }

  /** What a run put into the short buffer since Clear Short last took it: of every batch, the
      first packets, unchanged, as many as there was room for. */
  ghost function RunShort(states: seq<State>, steps: seq<Step>, k: nat): seq<Pkt>
    requires k <= |steps| && |states| == |steps| + 1
  {
    if k == 0 then []
    else
      var before, s := RunShort(states, steps, k - 1), states[k - 1];
      match steps[k - 1]
      case CShorten =>
        before + (if |before| + |s.inprog| <= s.shortLimit then s.inprog
                  else if |before| < s.shortLimit then s.inprog[..s.shortLimit - |before|]
                  else [])
      case ClearTake => []
      case _ => before
  }

  lemma DispatchKeepsShort(s: State)
    requires ShortInv(s) && s.cache.Dispatch?
    ensures ShortInv(DispatchInprog(s)) && DispatchInprog(s).shortBuf == s.shortBuf
  {
    hide DispatchAll, Within;
    if s.inprog == [] {
      assert s.dispatched + s.inprog == s.dispatched;
    } else {
      assert (s.dispatched + s.inprog)[..|s.dispatched|] == s.dispatched;
    }
  }

  lemma ShortenKeepsShort(s: State)
    requires ShortInv(s) && s.cache.Shorten? && |s.shortBuf| <= s.shortLimit
    ensures ShortInv(FillShort(s))
    ensures FillShort(s).shortBuf ==
            s.shortBuf + (if |s.shortBuf| + |s.inprog| <= s.shortLimit then s.inprog
                          else s.inprog[..s.shortLimit - |s.shortBuf|])
  {
    hide Within;
    var n := Min(|s.inprog|, s.shortLimit - |s.shortBuf|);
    WithinTaken(s.shortBuf, GoneBy(s), s.inprog, n);
    assert s.inprog[..|s.inprog|] == s.inprog;
  }

  lemma WorkerStepKeepsShort(s: State, t: Step)
    requires ShortInv(s) && Enabled(s, t) && Safe(s, t)
    requires !t.RxReceive? && !t.RxHead? && !t.CDispatch? && !t.CShorten? && !t.ClearTake? && !t.ClearReturn?
    ensures ShortInv(Next(s, t)) && Next(s, t).shortBuf == s.shortBuf
  {
    hide Bodies, Within;
  }

  /** Nothing of what the short buffer is about changes. */
  predicate ShortKept(s: State, r: State) {
    r.shortBuf == s.shortBuf && r.inprog == s.inprog && r.dispatched == s.dispatched && r.cache == s.cache
  }

  lemma HeadLeavesShort(s: State)
    ensures ShortKept(s, AtHead(s))
  {
    hide Assign;
  }

  lemma ReceiveLeavesShort(s: State, ds: seq<Datagram>, now: Time)
    requires SlotsFilled(s.msgs, 0, |ds|)
    ensures ShortKept(s, AfterReceive(s, ds, now))
  {
    hide AtHead, ReceiveAll;
    var s0 := s.(rxcnt := s.rxcnt + |ds|);
    ReceiveAllTouches(s0, 0, ds, now);
    HeadLeavesShort(ReceiveAll(s0, 0, ds, now));
  }

  lemma ClearLeavesShort(s: State, i: nat)
    requires i < |s.clearing|
    ensures ShortKept(s, ClearReturned(s, i))
  {
    hide Bodies;
  }

  lemma KeptShort(s: State, r: State)
    requires ShortInv(s) && ShortKept(s, r)
    ensures ShortInv(r) && r.shortBuf == s.shortBuf
  {
    hide Within;
  }

  lemma NextKeepsShort(s: State, t: Step)
    requires ShortInv(s) && Enabled(s, t) && Safe(s, t)
    ensures ShortInv(Next(s, t))
    ensures !t.CShorten? && !t.ClearTake? ==> Next(s, t).shortBuf == s.shortBuf
    ensures t.CShorten? ==> Next(s, t) == FillShort(s)
    ensures t.ClearTake? ==> Next(s, t).shortBuf == []
  {
    hide FillShort, DispatchInprog, AtHead, AfterReceive, ReturnBuffers, ClearReturned, ShortInv, ShortKept;
    match t
    case CDispatch => DispatchKeepsShort(s);
    case CShorten => ShortenKeepsShort(s);
    case ClearTake => TakingKeepsShort(s);
    case RxReceive(ds, now) => ReceiveLeavesShort(s, ds, now); KeptShort(s, AfterReceive(s, ds, now));
    case RxHead => HeadLeavesShort(s); KeptShort(s, AtHead(s));
    case ClearReturn(i) => ClearLeavesShort(s, i); KeptShort(s, ClearReturned(s, i));
    case _ => WorkerStepKeepsShort(s, t);
  }

  lemma TakingKeepsShort(s: State)
    requires ShortInv(s)
    ensures ShortInv(Next(s, ClearTake)) && Next(s, ClearTake).shortBuf == []
  {
  }

  /** In every state of every run the short buffer holds dispatched packets, unchanged and in the
      order in which they were dispatched; namely the fronts of the batches since the last Clear
      Short, as many as there was room for. An empty batch goes by neither the file nor it. */
  lemma {:induction false} ShortHoldsDispatched(states: seq<State>, steps: seq<Step>, total: nat, k: nat)
    requires IsRun(states, steps, total) && k < |states|
    ensures ShortInv(states[k]) && Within(states[k].shortBuf, states[k].dispatched)
    ensures states[k].shortBuf == RunShort(states, steps, k)
    ensures Passing(states[k]) ==> states[k].inprog != []
  {
    hide Next, Enabled, Held, Shapes, ShortInv;
    if k == 0 {
      assert ShortInv(states[0]) && states[0].shortBuf == [] by { InitialShort(states[0], total); }
    } else {
      var s, t := states[k - 1], steps[k - 1];
      ShortHoldsDispatched(states, steps, total, k - 1);
      RunKeepsBuffers(states, steps, total, k - 1, Any);
      NextKeepsShort(s, t);
      if t.CShorten? { ShortenTakesFront(s); }
    }
    AllGoneBy(states[k]);
  }

  lemma InitialShort(s: State, total: nat)
    requires Initial(s, total)
    ensures ShortInv(s) && s.shortBuf == []
  {
  }

  lemma ShortenTakesFront(s: State)
    requires ShortInv(s) && Enabled(s, CShorten) && Safe(s, CShorten)
    ensures FillShort(s).shortBuf ==
            s.shortBuf + (if |s.shortBuf| + |s.inprog| <= s.shortLimit then s.inprog
                          else if |s.shortBuf| < s.shortLimit then s.inprog[..s.shortLimit - |s.shortBuf|]
                          else [])
  {
    hide FillShort, ShortInv;
    ShortenKeepsShort(s);
  }

  lemma AllGoneBy(s: State)
    requires ShortInv(s)
    ensures Within(s.shortBuf, s.dispatched) && (Passing(s) ==> s.inprog != [])
  {
    hide Within;
    if Passing(s) { WithinMore(s.shortBuf, GoneBy(s), s.inprog); }
  }
}

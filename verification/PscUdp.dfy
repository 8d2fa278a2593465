/** PSCUDP's three lists of packet buffers: sendbuf (queued), txbuf (flushed, to be sent)
    and readybuf (free). */
module PscUdp {
  import opened Framing
  import opened Chunks
  import opened DBuffers
  import S = PscSession

  type Datagram = seq<byte>
  const LIMIT := 64

  /** How one sendto() goes. */
  datatype Sent = Whole | Part | Again | Failed

  datatype Queues = Queues(sendbuf: seq<Datagram>, txbuf: seq<Datagram>, readybuf: seq<Datagram>)

  predicate Bounded(q: Queues) { |q.sendbuf| <= LIMIT && |q.txbuf| < 2 * LIMIT && |q.readybuf| <= LIMIT }

  function Queued(q: Queues, d: Datagram): Queues {
    if |q.sendbuf| >= LIMIT then q
    else Queues(q.sendbuf + [d], q.txbuf, if q.readybuf == [] then [] else q.readybuf[1..])
  }

  function Flushed(q: Queues): Queues {
    if |q.txbuf| >= LIMIT then q else Queues([], q.txbuf + q.sendbuf, q.readybuf)
  }

  /** The sending loop: the lists it leaves, the datagrams the socket took, in order, and how many
      calls went wrong. plan is how the coming sendto() calls go; once it is used up the socket
      takes everything. */
  datatype Outcome = Outcome(q: Queues, sent: seq<Datagram>, faults: nat)

  function Transmit(q: Queues, plan: seq<Sent>): Outcome
    decreases 2 * |q.txbuf| + |q.readybuf|
  {
    if q.txbuf == [] then Outcome(q, [], 0)
    else if Stopped(plan) then Outcome(q, [], if plan[0].Failed? then 1 else 0)
    else
      var r := Transmit(Taken(q), Rest(plan));
      Outcome(r.q, [q.txbuf[0]] + r.sent, r.faults + if plan != [] && plan[0].Part? then 1 else 0)
  }

  predicate Stopped(plan: seq<Sent>) { plan != [] && (plan[0].Again? || plan[0].Failed?) }
  function Rest(plan: seq<Sent>): seq<Sent> { if plan == [] then [] else plan[1..] }

  /** The lists after the socket took the front datagram, whole or in part. */
  function Taken(q: Queues): Queues
    requires q.txbuf != []
  {
    if |q.readybuf| < LIMIT then q.(txbuf := q.txbuf[1..], readybuf := q.readybuf + [q.txbuf[0]])
    else q.(readybuf := q.readybuf[1..])
  }

  lemma TransmitOne(q: Queues, plan: seq<Sent>, before: seq<Datagram>)
    requires q.txbuf != [] && !Stopped(plan)
    ensures var r, r' := Transmit(q, plan), Transmit(Taken(q), Rest(plan));
            && r.q == r'.q && r.sent == [q.txbuf[0]] + r'.sent && before + r.sent == before + [q.txbuf[0]] + r'.sent
            && r.faults == r'.faults + if plan != [] && plan[0].Part? then 1 else 0
  {
  }

  lemma TransmitStops(q: Queues, plan: seq<Sent>)
    requires q.txbuf == [] || Stopped(plan)
    ensures Transmit(q, plan) == Outcome(q, [], if q.txbuf != [] && plan[0].Failed? then 1 else 0)
  {
  }

  /** With no more than 64 buffers between the two lists each datagram is sent once and in
      order, however the calls go: what was taken and what is left is what there was. */
  lemma {:induction false} SentOnce(q: Queues, plan: seq<Sent>)
    requires |q.txbuf| + |q.readybuf| <= LIMIT
    ensures var r := Transmit(q, plan);
            && r.sent + r.q.txbuf == q.txbuf
            && r.q.readybuf == q.readybuf + r.sent
            && r.q.sendbuf == q.sendbuf
    decreases |q.txbuf|
  {
    hide Transmit;
    if q.txbuf != [] && !Stopped(plan) {
      var d := q.txbuf[0];
      TransmitOne(q, plan, []);
      SentOnce(Taken(q), Rest(plan));
      var r := Transmit(Taken(q), Rest(plan));
      assert [d] + r.sent + r.q.txbuf == q.txbuf;
      assert q.readybuf + [d] + r.sent == q.readybuf + ([d] + r.sent);
    } else {
      TransmitStops(q, plan);
    }
  }

  function Doubled(ds: seq<Datagram>): (r: seq<Datagram>)
    ensures |r| == 2 * |ds|
  {
    if ds == [] then [] else [ds[0], ds[0]] + Doubled(ds[1..])
  }

  /** What a socket that takes everything is sent while the free list has room for free more. */
  function Sends(ds: seq<Datagram>, free: nat): seq<Datagram>
    decreases |ds|
  {
    if ds == [] then []
    else if free > 0 then [ds[0]] + Sends(ds[1..], free - 1)
    else [ds[0]] + [ds[0]] + Sends(ds[1..], 0)
  }

  lemma {:induction false} SendsSplits(ds: seq<Datagram>, free: nat)
    ensures var k := Min(|ds|, free); Sends(ds, free) == ds[..k] + Doubled(ds[k..])
    decreases |ds|
  {
    if ds != [] {
      var k, d, rest := Min(|ds|, free), ds[0], ds[1..];
      if free > 0 {
        calc {
          Sends(ds, free);
          [d] + Sends(rest, free - 1);
          { SendsSplits(rest, free - 1); }
          [d] + (rest[..k - 1] + Doubled(rest[k - 1..]));
          { assert rest[k - 1..] == ds[k..]; }
          [d] + (rest[..k - 1] + Doubled(ds[k..]));
          { assert [d] + rest[..k - 1] == ds[..k]; }
          ds[..k] + Doubled(ds[k..]);
        }
      } else {
        calc {
          Sends(ds, 0);
          { SendsSplits(rest, 0); }
          [d] + [d] + (rest[..0] + Doubled(rest[0..]));
          { assert rest[0..] == rest; }
          [d, d] + Doubled(rest);
          Doubled(ds);
          { assert ds[0..] == ds; }
          ds[..0] + Doubled(ds[0..]);
        }
      }
    }
  }

  lemma {:induction false} TransmitSends(q: Queues)
    requires |q.readybuf| <= LIMIT
    ensures Transmit(q, []).sent == Sends(q.txbuf, LIMIT - |q.readybuf|)
    ensures Transmit(q, []).q.txbuf == []
    decreases |q.txbuf|
  {
    hide Transmit;
    if q.txbuf == [] {
      TransmitStops(q, []);
    } else {
      var q1 := Taken(q);
      TransmitOne(q, [], []);
      if |q.readybuf| < LIMIT {
        TransmitSends(q1);
      } else {
        TransmitOne(q1, [], [q.txbuf[0]]);
        TransmitSends(Taken(q1));
      }
    }
  }

  /** A socket that takes everything: until the free list is full each datagram is sent once,
      from then on each is sent twice, because the free list is shortened instead of txbuf. */
  lemma SentWhenAllTaken(q: Queues)
    requires |q.readybuf| <= LIMIT
    ensures var k := Min(|q.txbuf|, LIMIT - |q.readybuf|);
            Transmit(q, []).sent == q.txbuf[..k] + Doubled(q.txbuf[k..])
    ensures Transmit(q, []).q.txbuf == []
  {
    TransmitSends(q);
    SendsSplits(q.txbuf, LIMIT - |q.readybuf|);
  }

  /** Of the next n calls, how many take something, in whole or in part, before one does not. */
  function GoodCalls(plan: seq<Sent>, n: nat): nat
    decreases n
  {
    if n == 0 then 0
    else if plan == [] then n
    else
      match plan[0]
      case Whole => 1 + GoodCalls(plan[1..], n - 1)
      case Part => 1 + GoodCalls(plan[1..], n - 1)
      case Again => 0
      case Failed => 0
  }

  /** And how many of those calls, with the one that ends them, take a part or fail. */
  function Faults(plan: seq<Sent>, n: nat): nat
    decreases n
  {
    if n == 0 || plan == [] then 0
    else
      match plan[0]
      case Whole => Faults(plan[1..], n - 1)
      case Part => 1 + Faults(plan[1..], n - 1)
      case Again => 0
      case Failed => 1
  }

  /** The free list has room for all that the socket is about to take. */
  predicate HasRoom(q: Queues, plan: seq<Sent>) { |q.readybuf| + GoodCalls(plan, |q.txbuf|) <= LIMIT }

  lemma {:induction false} SentAndLeft(q: Queues, plan: seq<Sent>)
    requires |q.readybuf| <= LIMIT
    ensures var r := Transmit(q, plan);
            && r.q.sendbuf == q.sendbuf
            && (HasRoom(q, plan) ==>
                  r.sent + r.q.txbuf == q.txbuf && |r.sent| == GoodCalls(plan, |q.txbuf|)
                  && r.faults == Faults(plan, |q.txbuf|))
            && |r.sent| + |r.q.txbuf| >= |q.txbuf| + (if HasRoom(q, plan) then 0 else 1)
    decreases 2 * |q.txbuf| + |q.readybuf|
  {
    hide Transmit;
    if q.txbuf != [] && !Stopped(plan) {
      TransmitOne(q, plan, []);
      GoodCallsBound(plan, |q.txbuf|);
      SentAndLeft(Taken(q), Rest(plan));
      var r := Transmit(Taken(q), Rest(plan));
      assert [q.txbuf[0]] + r.sent + r.q.txbuf == [q.txbuf[0]] + (r.sent + r.q.txbuf);
    } else {
      TransmitStops(q, plan);
    }
  }

  /** A call sends each datagram once, in order, and keeps the others exactly if the free list
      has room for what is taken; and that is so however the calls go exactly if both lists fit
      in 64. */
  lemma SentOnceIff(q: Queues)
    requires |q.readybuf| <= LIMIT
    ensures forall plan :: Transmit(q, plan).sent + Transmit(q, plan).q.txbuf == q.txbuf <==> HasRoom(q, plan)
    ensures (forall plan :: Transmit(q, plan).sent + Transmit(q, plan).q.txbuf == q.txbuf) <==>
            q.txbuf == [] || |q.txbuf| + |q.readybuf| <= 64
  {
    hide Transmit;
    forall plan
      ensures Transmit(q, plan).sent + Transmit(q, plan).q.txbuf == q.txbuf <==> HasRoom(q, plan)
      ensures q.txbuf == [] || |q.txbuf| + |q.readybuf| <= LIMIT ==> HasRoom(q, plan)
    {
      SentAndLeft(q, plan);
      GoodCallsBound(plan, |q.txbuf|);
    }
    GoodCallsBound([], |q.txbuf|);
    assert HasRoom(q, []) <==> Transmit(q, []).sent + Transmit(q, []).q.txbuf == q.txbuf;
  }

  lemma {:induction false} GoodCallsBound(plan: seq<Sent>, n: nat)
    ensures GoodCalls(plan, n) <= n && (plan == [] ==> GoodCalls(plan, n) == n)
    decreases n
  {
    if n > 0 && plan != [] { GoodCallsBound(plan[1..], n - 1); }
  }

  /** With room, a call takes exactly the datagrams before the first sendto() that takes nothing,
      leaves the others, and counts what went wrong. */
  lemma SendsUntilStopped(q: Queues, plan: seq<Sent>)
    requires |q.readybuf| <= LIMIT && HasRoom(q, plan)
    ensures var r, n := Transmit(q, plan), GoodCalls(plan, |q.txbuf|);
            n <= |q.txbuf| && r.sent == q.txbuf[..n] && r.q.txbuf == q.txbuf[n..] && r.faults == Faults(plan, |q.txbuf|)
  {
    SentAndLeft(q, plan);
    GoodCallsBound(plan, |q.txbuf|);
    var r := Transmit(q, plan);
    assert q.txbuf[..|r.sent|] == r.sent && q.txbuf[|r.sent|..] == r.q.txbuf;
  }

  lemma {:induction false} TransmitBounded(q: Queues, plan: seq<Sent>)
    requires Bounded(q)
    ensures Bounded(Transmit(q, plan).q)
    decreases 2 * |q.txbuf| + |q.readybuf|
  {
    if q.txbuf != [] && !Stopped(plan) {
      TransmitBounded(Taken(q), Rest(plan));
    }
  }

  // ----- runs -----

  datatype Event = Queue(d: Datagram) | Flush | Writable(plan: seq<Sent>)

  datatype Run = Run(q: Queues, queued: seq<Datagram>, sent: seq<Datagram>)

  function Next(s: Run, e: Event): Run {
    match e
    case Queue(d) => Run(Queued(s.q, d), if |s.q.sendbuf| >= LIMIT then s.queued else s.queued + [d], s.sent)
    case Flush => s.(q := Flushed(s.q))
    case Writable(plan) => var r := Transmit(s.q, plan); s.(q := r.q, sent := s.sent + r.sent)
  }

  function After(s: Run, es: seq<Event>): Run {
    if es == [] then s else Next(After(s, es[..|es| - 1]), es[|es| - 1])
  }

  const NOTHING_YET := Run(Queues([], [], []), [], [])

  lemma {:induction false} QueuesStayBounded(es: seq<Event>)
    ensures Bounded(After(NOTHING_YET, es).q)
    ensures var q := After(NOTHING_YET, es).q; |q.sendbuf| <= 64 && |q.txbuf| <= 127 && |q.readybuf| <= 64
  {
    if es != [] {
      var s, e := After(NOTHING_YET, es[..|es| - 1]), es[|es| - 1];
      QueuesStayBounded(es[..|es| - 1]);
      if e.Writable? { TransmitBounded(s.q, e.plan); }
    }
  }

  predicate AtMost64Outstanding(es: seq<Event>) {
    forall k :: 0 <= k <= |es| ==>
      var q := After(NOTHING_YET, es[..k]).q; |q.sendbuf| + |q.txbuf| <= LIMIT
  }

  predicate InOrder(s: Run) {
    && s.sent + s.q.txbuf + s.q.sendbuf == s.queued
    && |s.q.sendbuf| + |s.q.txbuf| + |s.q.readybuf| <= LIMIT
  }

  lemma NextKeepsOrder(s: Run, e: Event)
    requires InOrder(s) && var q := Next(s, e).q; |q.sendbuf| + |q.txbuf| <= LIMIT
    ensures InOrder(Next(s, e))
  {
    hide Transmit;
    match e
    case Queue(d) => assert s.sent + s.q.txbuf + (s.q.sendbuf + [d]) == s.sent + s.q.txbuf + s.q.sendbuf + [d];
    case Flush => assert s.sent + (s.q.txbuf + s.q.sendbuf) + [] == s.sent + s.q.txbuf + s.q.sendbuf;
    case Writable(plan) =>
      SentOnce(s.q, plan);
      var r := Transmit(s.q, plan);
      assert s.sent + r.sent + r.q.txbuf == s.sent + s.q.txbuf;
  }

  /** As long as no more than 64 datagrams are queued or waiting at any time, every run sends
      every datagram once, in the order they were queued. */
  lemma {:induction false} EachSentOnceInOrder(es: seq<Event>)
    requires AtMost64Outstanding(es)
    ensures InOrder(After(NOTHING_YET, es))
  {
    hide InOrder, Next;
    if es == [] {
      assert InOrder(NOTHING_YET) by { NothingInOrder(); }
    } else {
      var es' := es[..|es| - 1];
      forall k | 0 <= k <= |es'|
        ensures var q := After(NOTHING_YET, es'[..k]).q; |q.sendbuf| + |q.txbuf| <= LIMIT
      {
        assert es'[..k] == es[..k];
      }
      EachSentOnceInOrder(es');
      assert es[..|es|] == es;
      NextKeepsOrder(After(NOTHING_YET, es'), es[|es| - 1]);
    }
  }

  lemma NothingInOrder()
    ensures InOrder(NOTHING_YET)
  {
  }

  /** Every call of the run found room for what it took. */
  ghost predicate AlwaysRoom(es: seq<Event>) {
    forall k :: 0 <= k < |es| && es[k].Writable? ==> HasRoom(After(NOTHING_YET, es[..k]).q, es[k].plan)
  }

  /** What was queued is what was sent, then what waits, each once and in order. */
  predicate EachOnce(s: Run) { s.sent + s.q.txbuf + s.q.sendbuf == s.queued }

  function Surplus(s: Run): int { |s.sent| + |s.q.txbuf| + |s.q.sendbuf| - |s.queued| }

  lemma NextOnceIff(s: Run, e: Event)
    requires |s.q.readybuf| <= LIMIT && Surplus(s) >= 0
    ensures Surplus(Next(s, e)) >= 0
    ensures EachOnce(Next(s, e)) <==> EachOnce(s) && (e.Writable? ==> HasRoom(s.q, e.plan))
  {
    hide Transmit, HasRoom;
    var was := s.sent + s.q.txbuf + s.q.sendbuf;
    match e
    case Queue(d) =>
      assert s.sent + s.q.txbuf + (s.q.sendbuf + [d]) == was + [d];
      assert (was + [d])[..|was|] == was && (s.queued + [d])[..|s.queued|] == s.queued;
    case Flush => assert s.sent + (s.q.txbuf + s.q.sendbuf) + [] == was;
    case Writable(plan) =>
      SentAndLeft(s.q, plan);
      var r := Transmit(s.q, plan);
      assert s.sent + r.sent + r.q.txbuf == s.sent + (r.sent + r.q.txbuf);
  }

  /** A run sends every datagram once, in the order they were queued, exactly if every call found
      room in the free list for what it took. */
  lemma {:induction false} RunSendsOnceIff(es: seq<Event>)
    ensures EachOnce(After(NOTHING_YET, es)) <==> AlwaysRoom(es)
    ensures Surplus(After(NOTHING_YET, es)) >= 0
  {
    hide Next, HasRoom, EachOnce, Surplus;
    if es == [] {
      assert EachOnce(NOTHING_YET) && Surplus(NOTHING_YET) == 0 by { NothingSurplus(); }
    } else {
      var n := |es| - 1;
      RunSendsOnceIff(es[..n]);
      QueuesStayBounded(es[..n]);
      NextOnceIff(After(NOTHING_YET, es[..n]), es[n]);
      RoomOneMore(es);
    }
  }

  /** Nothing is left behind: after any run that has found room, a flush that is not refused and a
      writable socket that takes everything, all that was ever queued has been sent. */
  lemma FlushedIsSent(es: seq<Event>)
    requires AlwaysRoom(es)
    requires var q := After(NOTHING_YET, es).q;
             |q.txbuf| < LIMIT && |q.readybuf| + |q.txbuf| + |q.sendbuf| <= LIMIT
    ensures var s := After(NOTHING_YET, es + [Flush] + [Writable([])]); s.sent == s.queued
  {
    hide After, Transmit;
    RunSendsOnceIff(es);
    QueuesStayBounded(es);
    AfterOne(es, Flush);
    AfterOne(es + [Flush], Writable([]));
    var s := After(NOTHING_YET, es + [Flush]);
    SendsUntilStopped(s.q, []) by { GoodCallsBound([], |s.q.txbuf|); }
    GoodCallsBound([], |s.q.txbuf|);
    SentAndLeft(s.q, []);
    assert s.q.txbuf[..|s.q.txbuf|] == s.q.txbuf;
    NextOnceIff(After(NOTHING_YET, es), Flush);
  }

  lemma NothingSurplus()
    ensures EachOnce(NOTHING_YET) && Surplus(NOTHING_YET) == 0
  {
  }

  lemma RoomOneMore(es: seq<Event>)
    requires es != []
    ensures var n := |es| - 1;
            AlwaysRoom(es) <==>
            AlwaysRoom(es[..n]) && (es[n].Writable? ==> HasRoom(After(NOTHING_YET, es[..n]).q, es[n].plan))
  {
    hide HasRoom, After;
    var n := |es| - 1;
    assert forall k :: 0 <= k < n ==> es[..n][k] == es[k] && es[..n][..k] == es[..k];
  }

  lemma {:induction false} QueueMany(es: seq<Event>, d: Datagram, n: nat)
    requires var q := After(NOTHING_YET, es).q; |q.sendbuf| + n <= LIMIT
    ensures var s, t := After(NOTHING_YET, es), After(NOTHING_YET, es + seq(n, _ => Queue(d)));
            && |t.q.sendbuf| == |s.q.sendbuf| + n && |t.queued| == |s.queued| + n && t.sent == s.sent
            && t.q.txbuf == s.q.txbuf && |t.q.readybuf| == if n < |s.q.readybuf| then |s.q.readybuf| - n else 0
  {
    var many := seq(n, _ => Queue(d));
    if n == 0 {
      assert es + many == es;
    } else {
      QueueMany(es, d, n - 1);
      AfterOne(es + seq(n - 1, _ => Queue(d)), Queue(d));
      assert es + many == es + seq(n - 1, _ => Queue(d)) + [Queue(d)];
    }
  }

  lemma AfterOne(es: seq<Event>, e: Event)
    ensures After(NOTHING_YET, es + [e]) == Next(After(NOTHING_YET, es), e)
  {
    assert (es + [e])[..|es|] == es;
  }

  /** More than 64 outstanding do lead to duplicates, although no list ever exceeds its limit:
      64 datagrams are flushed, one is sent, 64 more are flushed, and then 190 are sent. */
  lemma MoreThan64Duplicates(d: Datagram) returns (es: seq<Event>)
    ensures var s := After(NOTHING_YET, es); s.q.txbuf == [] && s.q.sendbuf == [] && |s.sent| > |s.queued|
  {
    hide After, Transmit;
    assert After(NOTHING_YET, []) == NOTHING_YET by { AfterNothing(); }
    var many := seq(LIMIT, _ => Queue(d));
    QueueMany([], d, LIMIT);
    var a := [] + many;
    AfterOne(a, Flush);
    var b, plan := a + [Flush], [Whole, Again];
    AfterOne(b, Writable(plan));
    var q := After(NOTHING_YET, b).q;
    TransmitOne(q, plan, []);
    TransmitStops(Taken(q), Rest(plan));
    var c := b + [Writable(plan)];
    QueueMany(c, d, LIMIT);
    AfterOne(c + many, Flush);
    var e := c + many + [Flush];
    SentWhenAllTaken(After(NOTHING_YET, e).q);
    TransmitKeepsSendbuf(After(NOTHING_YET, e).q);
    AfterOne(e, Writable([]));
    es := e + [Writable([])];
  }

  lemma AfterNothing()
    ensures After(NOTHING_YET, []) == NOTHING_YET
  {
  }

  lemma {:induction false} TransmitKeepsSendbuf(q: Queues)
    ensures Transmit(q, []).q.sendbuf == q.sendbuf
    decreases 2 * |q.txbuf| + |q.readybuf|
  {
    if q.txbuf != [] { TransmitKeepsSendbuf(Taken(q)); }
  }

  // ----- one datagram -----

  /** 8u + buflen, in 32 bits. */
  function BufferSize(buflen: u32): u32 { Low32(HEADER_SIZE + buflen) }

  /** What a queued frame's buffer holds: as much of it as the buffer has room for. */
  function AsQueued(f: Frame): Datagram
    requires Fits(f)
  {
    Encode(f)[..BufferSize(|f.body|)]
  }

  /** The whole frame is queued, and nothing written behind the buffer, exactly if the header
      and the body together fit 32 bits. */
  lemma QueuedWholeIff(f: Frame)
    requires Fits(f)
    ensures AsQueued(f) == Encode(f) <==> HEADER_SIZE + |f.body| < 0x1_0000_0000
    ensures AsQueued(f) == Encode(f) <==> Parse(AsQueued(f)) == Parsed([f], [], false)
  {
    FramedIffFits(f);
    if HEADER_SIZE + |f.body| < 0x1_0000_0000 {
      assert Encode(f)[..|Encode(f)|] == Encode(f);
    }
  }

  /** b with x written over it from at on, as far as b reaches. */
  function Over(b: Datagram, at: nat, x: seq<byte>): (r: Datagram)
    ensures |r| == |b|
  {
    if at >= |b| then b else Blit(b, at, x[..Min(|x|, |b| - at)])
  }

  /** How much of that write falls behind the end of b. */
  function Past(b: Datagram, at: nat, x: seq<byte>): nat {
    if at >= |b| then |x| else |x| - Min(|x|, |b| - at)
  }

  lemma AsQueuedLayout(f: Frame, b: Datagram)
    requires Fits(f) && |b| == BufferSize(|f.body|)
    requires var n := Min(HEADER_SIZE, |b|); b[..n] == Header(f.id, |f.body|)[..n]
    ensures Over(b, HEADER_SIZE, f.body) == AsQueued(f)
    ensures HEADER_SIZE - Min(HEADER_SIZE, |b|) + Past(b, HEADER_SIZE, f.body) == |Encode(f)| - |AsQueued(f)|
  {
    hide Header;
    if HEADER_SIZE < |b| {
      assert |b| == HEADER_SIZE + |f.body| && f.body[..|f.body|] == f.body;
      assert Over(b, HEADER_SIZE, f.body) == b[..HEADER_SIZE] + f.body;
    }
  }

  lemma EncodeShort(f: Frame, b: Datagram)
    requires Fits(f) && HEADER_SIZE <= |b| && b[..HEADER_SIZE] == Header(f.id, |f.body|)
    ensures b[..HEADER_SIZE] + f.body == Encode(f)
  {
  }

  datatype Queueing = Refused | Aborted | Done

  // ----- the object -----

  class Udp {
    var connected: bool
    var sendbuf: seq<Datagram>
    var txbuf: seq<Datagram>
    var readybuf: seq<Datagram>
    var sendBlocks: map<u16, S.SendBlock>
    var conncount: nat

    ghost function View(): Queues
      reads this
    {
      Queues(sendbuf, txbuf, readybuf)
    }

    constructor ()
      ensures View() == NOTHING_YET.q && !connected && sendBlocks == map[]
    {
      connected, sendbuf, txbuf, readybuf, sendBlocks, conncount := false, [], [], [], map[], 0;
    }

    /** Takes a buffer off the free list, or a new one, sizes it, in 32 bits, and writes the
        header; past counts the bytes written behind the end of the buffer, which it loses. */
    method QueueHeader(code: u16, buflen: u32) returns (ok: bool, ghost past: nat)
      modifies this`sendbuf, this`readybuf
      ensures ok <==> |old(sendbuf)| < 64
      ensures !ok ==> View() == old(View()) && past == 0
      ensures ok ==> readybuf == if old(readybuf) == [] then [] else old(readybuf)[1..]
      ensures ok ==> |sendbuf| == |old(sendbuf)| + 1 && sendbuf[..|old(sendbuf)|] == old(sendbuf)
      ensures ok ==> var b := sendbuf[|old(sendbuf)|]; var n := Min(HEADER_SIZE, |b|);
                     |b| == BufferSize(buflen) && b[..n] == Header(code, buflen)[..n] && past == HEADER_SIZE - n
    {
      past := 0;
      if |sendbuf| >= LIMIT {
        return false, 0;
      }
      var scratch: Datagram := [];
      if readybuf != [] {
        scratch, readybuf := readybuf[0], readybuf[1..];
      }
      scratch := Padded(scratch, BufferSize(buflen), 0);
      past := Past(scratch, 0, Header(code, buflen));
      scratch := Over(scratch, 0, Header(code, buflen));
      sendbuf := sendbuf + [scratch];
      return true, past;
    }

    /** queueSend(Block*, const void*, epicsUInt32). Both sides of its assert wrap alike. */
    method QueueSend(id: u16, body: seq<byte>) returns (ok: bool, ghost past: nat)
      requires id in sendBlocks && |body| < 0x1_0000_0000
      modifies this`sendbuf, this`readybuf, this`sendBlocks
      ensures ok <==> |old(sendbuf)| < 64
      ensures View() == Queued(old(View()), AsQueued(Frame(id, body)))
      ensures past == if ok then |Encode(Frame(id, body))| - |AsQueued(Frame(id, body))| else 0
      ensures sendBlocks == if !ok then old(sendBlocks)
                            else old(sendBlocks)[id := S.SendBlock(true, old(sendBlocks)[id].count + 1)]
    {
      hide Header;
      ok, past := QueueHeader(id, |body|);
      if !ok {
        return;
      }
      var last := |sendbuf| - 1;
      var scratch := sendbuf[last];
      assert |scratch| == BufferSize(|body|);
      AsQueuedLayout(Frame(id, body), scratch);
      past := past + Past(scratch, HEADER_SIZE, body);
      scratch := Over(scratch, HEADER_SIZE, body);
      sendbuf := sendbuf[last := scratch];
      assert sendbuf == old(sendbuf) + [scratch];
      MarkQueued(id);
    }

    /** queueSend(Block*, const dbuffer&). Its assert adds in 64 bits and ends the program when
        the sizes do not agree. */
    method QueueBuffer(id: u16, buf: DBuffer<byte>) returns (r: Queueing)
      requires id in sendBlocks && buf.Valid()
      modifies this`sendbuf, this`readybuf, this`sendBlocks
      ensures r.Refused? <==> |old(sendbuf)| >= 64
      ensures r.Aborted? <==> |old(sendbuf)| < 64 && HEADER_SIZE + |old(buf.View())| >= 0x1_0000_0000
      ensures !r.Aborted? ==> View() == Queued(old(View()), Encode(Frame(id, old(buf.View()))))
      ensures !r.Aborted? ==>
                sendBlocks == if r.Refused? then old(sendBlocks)
                              else old(sendBlocks)[id := S.SendBlock(true, old(sendBlocks)[id].count + 1)]
    {
      hide Header, Encode, Blit;
      var size := buf.Size();
      ghost var past;
      var ok;
      ok, past := QueueHeader(id, Low32(size));
      if !ok {
        return Refused;
      }
      var last := |sendbuf| - 1;
      var scratch := sendbuf[last];
      if |scratch| != HEADER_SIZE + size {
        return Aborted;
      }
      var body := Copied(buf);
      EncodeShort(Frame(id, body), scratch);
      scratch := scratch[..HEADER_SIZE] + body;
      sendbuf := sendbuf[last := scratch];
      assert sendbuf == old(sendbuf) + [scratch];
      MarkQueued(id);
      return Done;
    }

    method Copied(buf: DBuffer<byte>) returns (body: seq<byte>)
      requires buf.Valid()
      ensures body == buf.View()
    {
      var dest := new byte[buf.Size()];
      var _ := buf.CopyOut(dest, 0, buf.Size());
      body := dest[..];
    }

    method MarkQueued(id: u16)
      requires id in sendBlocks
      modifies this`sendBlocks
      ensures sendBlocks == old(sendBlocks)[id := S.SendBlock(true, old(sendBlocks)[id].count + 1)]
    {
      sendBlocks := sendBlocks[id := S.SendBlock(true, sendBlocks[id].count + 1)];
    }

    method FlushSend() returns (ok: bool)
      modifies this`sendbuf, this`txbuf, this`sendBlocks
      ensures ok <==> !connected || |old(txbuf)| < 64
      ensures View() == if connected then Flushed(old(View())) else old(View())
      ensures connected && ok ==> txbuf == old(txbuf) + old(sendbuf) && sendbuf == []
      ensures sendBlocks == if connected && ok then S.Unqueued(old(sendBlocks)) else old(sendBlocks)
    {
      if !connected {
        return true;
      }
      if |txbuf| >= LIMIT {
        return false;
      }
      txbuf, sendbuf := txbuf + sendbuf, [];
      sendBlocks := S.ClearQueued(sendBlocks);
      return true;
    }

    /** Called when the socket is writable; again says the write event was armed again. */
    method SendData(plan: seq<Sent>) returns (again: bool, ghost sent: seq<Datagram>)
      modifies this`txbuf, this`readybuf, this`conncount
      ensures View() == Transmit(old(View()), plan).q
      ensures sent == Transmit(old(View()), plan).sent
      ensures conncount == old(conncount) + Transmit(old(View()), plan).faults
      ensures again <==> txbuf != []
    {
      hide Transmit;
      sent := [];
      var coming := plan;
      assert [] + Transmit(View(), plan).sent == Transmit(View(), plan).sent;
      while txbuf != []
        invariant conncount >= old(conncount)
        invariant Transmit(old(View()), plan) ==
          Outcome(Transmit(View(), coming).q, sent + Transmit(View(), coming).sent,
                  Transmit(View(), coming).faults + (conncount - old(conncount)))
        decreases 2 * |txbuf| + |readybuf|
      {
        var d := txbuf[0];
        var ret := if coming == [] then Whole else coming[0];
        if ret == Again {
          break;
        } else if ret == Failed {
          conncount := conncount + 1;
          break;
        } else if ret == Part {
          conncount := conncount + 1;
        }
        TransmitOne(View(), coming, sent);
        coming := Rest(coming);
        if |readybuf| < LIMIT {
          readybuf, txbuf := readybuf + [d], txbuf[1..];
        } else {
          readybuf := readybuf[1..];
        }
        sent := sent + [d];
      }
      TransmitStops(View(), coming);
      assert sent + [] == sent;
      again := txbuf != [];
    }
  }
}

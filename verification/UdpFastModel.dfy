/** UDPFast as interleaved steps. A worker step is what one worker does between taking a lock
    and giving it back (or one signal, wait or test outside the locks); the steps of record
    support and of stop() come from outside. Events are sticky and binary. */
module UdpFastModel {
  import opened Framing
  import opened Chunks

  /** A std::vector that is empty (moved from), or one of the pooled buffers. */
  datatype Vec = Empty | Buf(id: nat, data: seq<byte>)
  datatype Time = Time(sec: u32, nsec: u32)
  datatype Pkt = Pkt(body: Vec, bodylen: u32, rxtime: Time, msgid: u16)
  const NO_PKT := Pkt(Empty, 0, Time(0, 0), 0)

  /** requests counts the calls of requestScan; heard is what each call of the listeners found. */
  datatype Block = Block(count: nat, rxtime: Time, data: seq<byte>, requests: nat, heard: seq<seq<byte>>)

  /** What one slot of recvmmsg is given: all bytes sent, and whether the peer sent them. */
  datatype Datagram = Datagram(fromPeer: bool, bytes: seq<byte>)

  /** Where the receive worker is: about to lock and look at its loop's head; waiting for
      vpoolStall; unlocked with its buffers assigned; in recvmmsg; or finished. */
  datatype RxPc = Head | Stalled | Notify(nassign: nat) | Receive(nassign: nat) | RxDone

  /** Where the cache worker is: about to return buffers; to signal vpoolStall; to test
      running; waiting for pendingReady; awake; to dispatch; to write; to fill shortBuf. */
  datatype CachePc = Deassign | Unstall | Check | Wait | Woken | Dispatch | Write | Shorten | CacheDone

  datatype StopPc = NotStopped | Flagged | RxSignalled | Signalled

  /** clearing is the temporaries of the Clear Shorts under way. History: accepted and dispatched packets,
      and poked, that Clear Short put buffers back during the present stall. */
  datatype State = State(
    batchSize: nat,
    vpool: seq<Vec>, pending: seq<Pkt>,
    rx: RxPc, msgs: seq<Vec>, notifycache: bool,
    cache: CachePc, inprog: seq<Pkt>,
    vpoolStall: bool, pendingReady: bool, running: bool, stop: StopPc,
    shortBuf: seq<Pkt>, shortLimit: nat, clearing: seq<seq<Pkt>>,
    rxcnt: nat, nignore: nat, noom: nat, ukncount: nat, blocks: map<u16, Block>,
    accepted: seq<Pkt>, dispatched: seq<Pkt>, poked: bool)

  // ----- the receive worker -----

  datatype Assigned = Assigned(vpool: seq<Vec>, msgs: seq<Vec>, nassign: nat)

  /** Slots from i on are given buffers from the back of the pool, until it is empty. */
  function Assign(vpool: seq<Vec>, msgs: seq<Vec>, i: nat): Assigned
    requires i <= |msgs|
    decreases |msgs| - i
  {
    if i == |msgs| then Assigned(vpool, msgs, i)
    else if msgs[i] != Empty then Assign(vpool, msgs, i + 1)
    else if vpool == [] then Assigned(vpool, msgs, i)
    else Assign(vpool[..|vpool| - 1], msgs[i := vpool[|vpool| - 1]], i + 1)
  }

  /** The head of the main loop, lock held. */
  function AtHead(s: State): State {
    if !s.running then s.(rx := RxDone, msgs := [])
    else if s.vpool == [] then s.(rx := Stalled, noom := s.noom + 1)
    else
      var a := Assign(s.vpool, s.msgs, 0);
      s.(rx := Notify(a.nassign), vpool := a.vpool, msgs := a.msgs)
  }

  /** The datagram's bytes after the header land in the buffer, as far as it reaches. */
  function Landed(v: Vec, d: Datagram): (r: Vec)
    requires v.Buf?
    ensures r.Buf? && r.id == v.id && |r.data| == |v.data|
  {
    var n := if |d.bytes| < HEADER_SIZE then 0 else Min(|d.bytes| - HEADER_SIZE, |v.data|);
    Buf(v.id, (if n == 0 then [] else d.bytes[HEADER_SIZE..HEADER_SIZE + n]) + v.data[n..])
  }

  /** msg_len, what recvmmsg reports. */
  function Length(v: Vec, d: Datagram): nat
    requires v.Buf?
  {
    Min(|d.bytes|, HEADER_SIZE + |v.data|)
  }

  predicate Accepts(v: Vec, d: Datagram)
    requires v.Buf?
  {
    && d.fromPeer
    && HEADER_SIZE <= Length(v, d)
    && HeaderOk(d.bytes)
    && Length(v, d) - HEADER_SIZE <= HeaderLen(d.bytes)
  }

  function Accepted(v: Vec, d: Datagram, now: Time): Pkt
    requires v.Buf? && Accepts(v, d)
  {
    Pkt(Landed(v, d), HeaderLen(d.bytes), now, HeaderId(d.bytes))
  }

  /** Slot i of a batch: taken into pending, or ignored and its buffer kept in the slot. */
  function ReceiveOne(s: State, i: nat, d: Datagram, now: Time): State
    requires i < |s.msgs| && s.msgs[i].Buf?
  {
    var v := s.msgs[i];
    if Accepts(v, d) then
      s.(msgs := s.msgs[i := Empty], notifycache := s.notifycache || s.pending == [],
         pending := s.pending + [Accepted(v, d, now)], accepted := s.accepted + [Accepted(v, d, now)])
    else
      s.(msgs := s.msgs[i := Landed(v, d)], nignore := s.nignore + 1)
  }

  predicate SlotsFilled(msgs: seq<Vec>, from: nat, to: nat) {
    to <= |msgs| && forall i :: from <= i < to ==> msgs[i].Buf?
  }

  function ReceiveAll(s: State, i: nat, ds: seq<Datagram>, now: Time): (r: State)
    requires i <= |ds| && SlotsFilled(s.msgs, i, |ds|)
    decreases |ds| - i
  {
    if i == |ds| then s else ReceiveAll(ReceiveOne(s, i, ds[i], now), i + 1, ds, now)
  }

  /** recvmmsg has returned |ds| datagrams (none on a timeout or an error). */
  function AfterReceive(s: State, ds: seq<Datagram>, now: Time): State
    requires SlotsFilled(s.msgs, 0, |ds|)
  {
    AtHead(ReceiveAll(s.(rxcnt := s.rxcnt + |ds|), 0, ds, now))
  }

  // ----- the cache worker -----

  /** The buffers packets hold, in order. */
  function Bodies(ps: seq<Pkt>): seq<Vec> {
    if ps == [] then []
    else Bodies(ps[..|ps| - 1]) + (if ps[|ps| - 1].body == Empty then [] else [ps[|ps| - 1].body])
  }

  function ReturnBuffers(s: State): State {
    var vpool' := s.vpool + Bodies(s.inprog);
    s.(vpool := vpool', inprog := [],
       cache := if s.inprog != [] && s.vpool == [] && vpool' != [] then Unstall else Check)
  }

  datatype Sink = Sink(blocks: map<u16, Block>, ukncount: nat)

  /** What a block is assigned from a packet's body: the whole buffer. */
  function Data(v: Vec): (r: seq<byte>)
    ensures v.Buf? ==> r == v.data
  {
    if v.Buf? then v.data else []
  }

  function Shown(b: Block, p: Pkt): Block {
    Block(b.count + 1, p.rxtime, Data(p.body), b.requests + 1, b.heard + [Data(p.body)])
  }

  function DispatchOne(k: Sink, p: Pkt): Sink {
    if p.msgid in k.blocks then k.(blocks := k.blocks[p.msgid := Shown(k.blocks[p.msgid], p)])
    else k.(ukncount := k.ukncount + 1)
  }

  function DispatchAll(k: Sink, ps: seq<Pkt>): Sink {
    if ps == [] then k else DispatchOne(DispatchAll(k, ps[..|ps| - 1]), ps[|ps| - 1])
  }

  function DispatchInprog(s: State): State {
    var k := DispatchAll(Sink(s.blocks, s.ukncount), s.inprog);
    s.(blocks := k.blocks, ukncount := k.ukncount, dispatched := s.dispatched + s.inprog,
       cache := if s.inprog == [] then Deassign else Write)
  }

  /** The first packets move into shortBuf, up to its limit. */
  function FillShort(s: State): State
    requires |s.shortBuf| <= s.shortLimit
  {
    var n := Min(|s.inprog|, s.shortLimit - |s.shortBuf|);
    s.(shortBuf := s.shortBuf + s.inprog[..n],
       inprog := seq(n, _ => NO_PKT) + s.inprog[n..], cache := Deassign)
  }

  // ----- Clear Short -----

  /** All packets that Clear Shorts have taken and not given back. */
  function Cleared(s: State): seq<Pkt> { Flatten(s.clearing) }

  /** One Clear Short gives its packets' buffers back to the pool. */
  function ClearReturned(s: State, i: nat): State
    requires i < |s.clearing|
  {
    s.(vpool := s.vpool + Bodies(s.clearing[i]), clearing := s.clearing[..i] + s.clearing[i + 1..],
       poked := s.poked || (s.rx.Stalled? && s.clearing[i] != []))
  }

  // ----- steps -----

  datatype Step =
    | RxHead | RxWake | RxNotify | RxReceive(ds: seq<Datagram>, now: Time)
    | CDeassign | CUnstall | CCheck | CWake | CSwap | CDispatch | CWrite | CShorten
    | ClearTake | ClearReturn(i: nat) | RaiseLimit(nelm: nat) | Nudge
    | StopFlag | StopRx | StopCache

  predicate Enabled(s: State, t: Step) {
    match t
    case RxHead => s.rx.Head?
    case RxWake => s.rx.Stalled? && s.vpoolStall
    case RxNotify => s.rx.Notify?
    case RxReceive(ds, _) => s.rx.Receive? && |ds| <= s.rx.nassign
    case CDeassign => s.cache.Deassign?
    case CUnstall => s.cache.Unstall?
    case CCheck => s.cache.Check?
    case CWake => s.cache.Wait? && s.pendingReady
    case CSwap => s.cache.Woken?
    case CDispatch => s.cache.Dispatch?
    case CWrite => s.cache.Write?
    case CShorten => s.cache.Shorten?
    case ClearReturn(i) => i < |s.clearing|
    case StopFlag => s.stop.NotStopped?
    case StopRx => s.stop.Flagged?
    case StopCache => s.stop.RxSignalled?
    case _ => true
  }

  predicate AllHold(ps: seq<Pkt>) { forall j :: 0 <= j < |ps| ==> ps[j].body.Buf? }

  /** What the source takes for granted when a step runs: received slots, and the packets that
      a Clear Short gives back, hold buffers; shortLimit - shortBuf.size() does not wrap. */
  predicate Safe(s: State, t: Step) {
    match t
    case RxReceive(ds, _) => SlotsFilled(s.msgs, 0, |ds|)
    case CShorten => |s.shortBuf| <= s.shortLimit
    case ClearReturn(i) => i < |s.clearing| ==> AllHold(s.clearing[i])
    case _ => true
  }

  function Next(s: State, t: Step): State
    requires Enabled(s, t) && Safe(s, t)
  {
    match t
    case RxHead => AtHead(s)
    case RxWake => s.(vpoolStall := false, rx := Head, poked := false)
    case RxNotify =>
      s.(pendingReady := s.pendingReady || s.notifycache, notifycache := false, rx := Receive(s.rx.nassign))
    case RxReceive(ds, now) => AfterReceive(s, ds, now)
    case CDeassign => ReturnBuffers(s)
    case CUnstall => s.(vpoolStall := true, cache := Check)
    case CCheck => s.(cache := if s.running then Wait else CacheDone)
    case CWake => s.(pendingReady := false, cache := Woken)
    case CSwap => s.(inprog := s.pending, pending := s.inprog, cache := Dispatch)
    case CDispatch => DispatchInprog(s)
    case CWrite => s.(cache := Shorten)
    case CShorten => FillShort(s)
    case ClearTake => s.(clearing := s.clearing + [s.shortBuf], shortBuf := [])
    case ClearReturn(i) => ClearReturned(s, i)
    case RaiseLimit(nelm) => s.(shortLimit := if s.shortLimit < nelm then nelm else s.shortLimit)
    case Nudge => s.(pendingReady := true)
    case StopFlag => s.(running := false, stop := Flagged)
    case StopRx => s.(vpoolStall := true, stop := RxSignalled)
    case StopCache => s.(pendingReady := true, stop := Signalled)
  }

  /** The pool as the constructor fills it: total buffers, each at least 8 bytes. */
  ghost predicate Initial(s: State, total: nat) {
    && s.batchSize > 0
    && |s.vpool| == total
    && (forall i :: 0 <= i < total ==> s.vpool[i].Buf? && s.vpool[i].id == i && |s.vpool[i].data| >= 8)
    && s == State(s.batchSize, s.vpool, [], Head, seq(s.batchSize, _ => Empty), false, Deassign, [],
                  false, false, true, NotStopped, [], 0, [], 0, 0, 0, 0, s.blocks, [], [], false)
    && forall id :: id in s.blocks ==> s.blocks[id].count == 0
  }

  /** A run: states linked by enabled steps, as far as each step is safe. */
  ghost predicate IsRun(states: seq<State>, steps: seq<Step>, total: nat) {
    && |states| == |steps| + 1
    && Initial(states[0], total)
    && forall i :: 0 <= i < |steps| ==>
         Enabled(states[i], steps[i]) && (Safe(states[i], steps[i]) ==> states[i + 1] == Next(states[i], steps[i]))
  }
}

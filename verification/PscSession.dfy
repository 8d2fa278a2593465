/** PSC: the session machine (connect, errors, reconnect timer, data) and the send queue.
    State is the driver at a moment when its lock is free; the functions say what each
    entry point does to it, and every assert of the source is a precondition here. */
module PscSession {
  import opened Framing
  import opened Chunks
  import Dec = PscDecoder

  const MIN_MAX_BUF_SIZE := 1024 * 1024

  datatype SendBlock = SendBlock(queued: bool, count: nat)

  /** A live bufferevent: its read watermarks and all bytes moved to its output so far. */
  datatype Session = Session(low: nat, high: nat, tx: seq<byte>)

  /** History, not in the source: rx is every byte the current session has received and
      sink0 what had been received before it; waiting is what was queued and not flushed,
      flushed what was moved into the current session; strayQueued and straySent say that
      something other than whole frames was queued and not flushed, or moved into it; inQueue
      is the blocks with a message in the queue, lost those whose message a failed move threw
      away since the last flush. */
  datatype History = History(started: bool, dead: bool, rx: seq<byte>, sink0: Dec.Sink,
                             waiting: seq<Frame>, flushed: seq<Frame>, strayQueued: bool, straySent: bool,
                             inQueue: set<u16>, lost: set<u16>)

  datatype State = State(connected: bool, session: Option<Session>, timerActive: bool, conncount: nat,
                         dec: Dec.Decoder, sendBlocks: map<u16, SendBlock>, sendbuf: seq<byte>,
                         maxSend: int, hist: History)

  function Initial(sink: Dec.Sink, maxSend: int): State {
    State(false, None, false, 0, Dec.Fresh(sink), map[], [], maxSend,
          History(false, false, [], sink, [], [], false, false, {}, {}))
  }

  // ----- the session machine -----

  datatype ConnectOutcome = NoMemory | NotInitiated | Initiated

  predicate ConnectAsserts(s: State) { !s.connected && s.session.None? && !s.timerActive }

  function Connect(s: State, o: ConnectOutcome): State
    requires ConnectAsserts(s)
  {
    var s' := s.(dec := Dec.Fresh(s.dec.sink),
                 hist := s.hist.(started := true, dead := o.NoMemory?, rx := [], sink0 := s.dec.sink,
                                 flushed := [], straySent := false));
    match o
    case NoMemory => s'
    case NotInitiated => s'.(timerActive := true)
    case Initiated => s'.(session := Some(Session(HEADER_SIZE, MIN_MAX_BUF_SIZE, [])))
  }

  predicate ReconnectAsserts(s: State) { !s.connected && s.session.None? }

  function Reconnect(s: State, o: ConnectOutcome): State
    requires ReconnectAsserts(s)
  {
    Connect(s.(timerActive := false), o)
  }

  predicate StartReconnectAsserts(s: State) { s.session.Some? && !s.timerActive }

  function StartReconnect(s: State): State
    requires StartReconnectAsserts(s)
  {
    s.(session := None, connected := false, timerActive := true, dec := s.dec.(buf := []))
  }

  datatype SessionEvent = Connected | Failed | Other

  function EventCb(s: State, e: SessionEvent): State
    requires e.Failed? ==> StartReconnectAsserts(s)
  {
    match e
    case Connected => s.(connected := true, conncount := s.conncount + 1)
    case Failed => StartReconnect(s)
    case Other => s
  }

  function ForceReconnect(s: State): State
    requires s.connected ==> StartReconnectAsserts(s)
  {
    if s.connected then StartReconnect(s) else s
  }

  predicate RecvAsserts(s: State) { s.connected && s.session.Some? }

  /** More bytes have arrived and the data callback runs. */
  function RecvData(s: State, bytes: seq<byte>): State
    requires RecvAsserts(s) && !s.timerActive && Dec.Inv(s.dec)
  {
    var d := Dec.Drain(Dec.Arrive(s.dec, bytes));
    var h := s.hist.(rx := s.hist.rx + bytes);
    if d.failed then
      StartReconnect(s.(dec := d.(failed := false), hist := h))
    else
      var e := d.expected;
      s.(dec := d, hist := h,
         session := Some(s.session.value.(low := e, high := if e >= MIN_MAX_BUF_SIZE then e + 1 else MIN_MAX_BUF_SIZE)))
  }

  // ----- the send queue -----

  datatype SendResult = Ok | AlreadyQueued | WouldExceed | OutOfMemory | MoveFailed

  function GetSend(s: State, id: u16): State {
    if id in s.sendBlocks then s else s.(sendBlocks := s.sendBlocks[id := SendBlock(false, 0)])
  }

  /** queueHeader's refusals, in its order; expandOk is evbuffer_expand's answer. */
  function QueueCheck(s: State, id: u16, expandOk: bool): SendResult
    requires id in s.sendBlocks
  {
    if !s.connected then Ok
    else if s.sendBlocks[id].queued then AlreadyQueued
    else if s.maxSend > 0 && |s.sendbuf| >= s.maxSend then WouldExceed
    else if !expandOk then OutOfMemory
    else Ok
  }

  /** queueSend of a block. Without a connection the body goes in with no header. */
  function QueueSend(s: State, id: u16, body: seq<byte>, expandOk: bool): State
    requires id in s.sendBlocks
  {
    if QueueCheck(s, id, expandOk) != Ok then s
    else
      var f := Frame(id, body);
      var whole := s.connected && Fits(f);
      s.(sendbuf := s.sendbuf + (if s.connected then Encode(f) else body),
         sendBlocks := s.sendBlocks[id := SendBlock(true, s.sendBlocks[id].count + 1)],
         hist := s.hist.(waiting := if whole then s.hist.waiting + [f] else s.hist.waiting,
                         strayQueued := s.hist.strayQueued || (!whole && body != []),
                         inQueue := s.hist.inQueue + {id}))
  }

  function FlushCheck(s: State, backlog: nat, moveOk: bool): SendResult {
    if !s.connected then Ok
    else if s.maxSend > 0 && backlog >= s.maxSend then WouldExceed
    else if !moveOk then MoveFailed
    else Ok
  }

  function Unqueued(blocks: map<u16, SendBlock>): map<u16, SendBlock> {
    map id | id in blocks :: blocks[id].(queued := false)
  }

  /** The loop both transports' flushSend runs over their send blocks. */
  method ClearQueued(blocks: map<u16, SendBlock>) returns (r: map<u16, SendBlock>)
    ensures r == Unqueued(blocks)
  {
    r := blocks;
    var todo := blocks.Keys;
    while todo != {}
      invariant r.Keys == blocks.Keys && todo <= r.Keys
      invariant forall id :: id in r ==> r[id] == if id in todo then blocks[id] else blocks[id].(queued := false)
      decreases |todo|
    {
      var id :| id in todo;
      r := r[id := r[id].(queued := false)];
      todo := todo - {id};
    }
  }

  /** flushSend; backlog is what the session has not put on the wire yet, moveOk is
      evbuffer_add_buffer's answer. A failed move throws the queue away. */
  function Flush(s: State, backlog: nat, moveOk: bool): State
    requires s.connected ==> s.session.Some?
  {
    if !s.connected then s
    else
      match FlushCheck(s, backlog, moveOk)
      case MoveFailed =>
        s.(sendbuf := [], hist := s.hist.(waiting := [], strayQueued := false,
                                          inQueue := {}, lost := s.hist.lost + s.hist.inQueue))
      case Ok =>
        var t := s.session.value;
        s.(session := Some(t.(tx := t.tx + s.sendbuf)), sendbuf := [], sendBlocks := Unqueued(s.sendBlocks),
           hist := s.hist.(waiting := [], flushed := s.hist.flushed + s.hist.waiting,
                           strayQueued := false, straySent := s.hist.straySent || s.hist.strayQueued,
                           inQueue := {}, lost := {}))
      case _ => s
  }

  // ----- runs -----

  datatype Event =
    | Start(outcome: ConnectOutcome)
    | Timer(outcome: ConnectOutcome)
    | Callback(e: SessionEvent)
    | Data(bytes: seq<byte>)
    | Force
    | Register(id: u16)
    | Queue(id: u16, body: seq<byte>, expandOk: bool)
    | FlushAll(backlog: nat, moveOk: bool)

  /** What libevent and the IOC may do: startAll connects once, an armed timer fires, only a
      live session has callbacks, it is connected once, and then has data. */
  predicate Enabled(s: State, e: Event) {
    match e
    case Start(_) => !s.hist.started
    case Timer(_) => s.timerActive
    case Callback(c) => s.session.Some? && (c.Connected? ==> !s.connected)
    case Data(_) => s.session.Some? && s.connected
    case Queue(id, _, _) => id in s.sendBlocks
    case _ => true
  }

  /** The asserts of the source that this event meets (for a data event, also recvdata's own
      two: a fresh header expects 8 bytes, and every pass of its loop makes progress). */
  predicate Asserts(s: State, e: Event) {
    match e
    case Start(_) => ConnectAsserts(s)
    case Timer(_) => ReconnectAsserts(s)
    case Callback(c) => c.Failed? ==> StartReconnectAsserts(s)
    case Data(_) => RecvAsserts(s) && StartReconnectAsserts(s) && Dec.Inv(s.dec)
    case Force => s.connected ==> StartReconnectAsserts(s)
    case FlushAll(_, _) => s.connected ==> s.session.Some?
    case _ => true
  }

  function Next(s: State, e: Event): State
    requires Enabled(s, e) && Asserts(s, e)
  {
    match e
    case Start(o) => Connect(s, o)
    case Timer(o) => Reconnect(s, o)
    case Callback(c) => EventCb(s, c)
    case Data(bytes) => RecvData(s, bytes)
    case Force => ForceReconnect(s)
    case Register(id) => GetSend(s, id)
    case Queue(id, body, ok) => QueueSend(s, id, body, ok)
    case FlushAll(backlog, ok) => Flush(s, backlog, ok)
  }

  predicate DistinctIds(fs: seq<Frame>) {
    forall i, j :: 0 <= i < j < |fs| ==> fs[i].id != fs[j].id
  }

  /** The decoder is exactly what this session's bytes make of a fresh one, it keeps fewer
      bytes than the low watermark, and that is below the high one; what the blocks and the log
      got from these bytes stays when the session ends. */
  predicate ReceiveInv(s: State) {
    && !s.dec.failed
    && (s.hist.started ==> s.dec.sink == Dec.Drain(Dec.Arrive(Dec.Fresh(s.hist.sink0), s.hist.rx)).sink)
    && (s.session.None? ==> s.dec.buf == [])
    && (s.session.Some? ==>
          && Dec.Inv(s.dec)
          && s.dec == Dec.Drain(Dec.Arrive(Dec.Fresh(s.hist.sink0), s.hist.rx))
          && |s.dec.buf| < s.dec.expected == s.session.value.low
          && s.session.value.high == if s.dec.expected >= 1048576 then s.dec.expected + 1 else 1048576)
  }

  predicate SessionInv(s: State) {
    && (s.connected ==> s.session.Some?)
    && (s.hist.started && !s.hist.dead <==> s.session.Some? || s.timerActive)
    && !(s.session.Some? && s.timerActive)
    && (s.hist.dead ==> s.hist.started)
  }

  /** Ids that wait are distinct and their blocks are flagged; unless something stray is in it,
      the queue is whole frames, and so is what was moved into the session. */
  predicate SendInv(s: State) {
    && (forall f :: f in s.hist.waiting ==> Fits(f) && f.id in s.sendBlocks && s.sendBlocks[f.id].queued)
    && DistinctIds(s.hist.waiting)
    && (forall f :: f in s.hist.flushed ==> Fits(f))
    && (!s.hist.strayQueued ==> s.sendbuf == EncodeAll(s.hist.waiting))
    && (!s.hist.straySent && s.session.Some? ==> s.session.value.tx == EncodeAll(s.hist.flushed))
  }

  /** A block is flagged exactly if it has a message in the queue or lost one to a failed move. */
  predicate FlagInv(s: State) {
    && s.hist.inQueue + s.hist.lost <= s.sendBlocks.Keys
    && (forall id :: id in s.sendBlocks ==>
          (s.sendBlocks[id].queued <==> id in s.hist.inQueue || id in s.hist.lost))
    && (s.hist.inQueue == {} ==> s.sendbuf == [])
  }

  predicate Inv(s: State) { SessionInv(s) && ReceiveInv(s) && SendInv(s) && FlagInv(s) }

  lemma FreshIsDrained(sink: Dec.Sink)
    ensures Dec.Fresh(sink) == Dec.Drain(Dec.Arrive(Dec.Fresh(sink), []))
  {
    assert Dec.Arrive(Dec.Fresh(sink), []) == Dec.Fresh(sink);
  }

  lemma RecvKeepsReceiveInv(s: State, bytes: seq<byte>)
    requires SessionInv(s) && ReceiveInv(s) && s.connected
    ensures ReceiveInv(RecvData(s, bytes))
  {
    var d0 := Dec.Fresh(s.hist.sink0);
    Dec.DrainArrive(Dec.Arrive(d0, s.hist.rx), bytes);
    Dec.ArriveArrive(d0, s.hist.rx, bytes);
  }

  lemma QueueKeepsSendInv(s: State, id: u16, body: seq<byte>, expandOk: bool)
    requires SendInv(s) && id in s.sendBlocks
    ensures SendInv(QueueSend(s, id, body, expandOk))
  {
    hide EncodeAll, Encode;
    var f := Frame(id, body);
    if QueueCheck(s, id, expandOk) == Ok {
      if s.connected && Fits(f) {
        WaitingMore(s.hist.waiting, f);
      } else if body == [] {
        assert s.sendbuf + body == s.sendbuf;
      }
    }
  }

  lemma WaitingMore(fs: seq<Frame>, f: Frame)
    ensures EncodeAll(fs + [f]) == EncodeAll(fs) + Encode(f)
    ensures forall g :: g in fs + [f] ==> g in fs || g == f
    ensures DistinctIds(fs) && (forall g :: g in fs ==> g.id != f.id) ==> DistinctIds(fs + [f])
  {
    hide EncodeAll, Encode;
    EncodeAllAppend(fs, [f]);
    EncodeOne(f);
  }

  lemma FlushKeepsSendInv(s: State, backlog: nat, moveOk: bool)
    requires SendInv(s) && (s.connected ==> s.session.Some?)
    ensures SendInv(Flush(s, backlog, moveOk))
  {
    hide EncodeAll;
    EncodeNothing();
    if s.connected {
      var h := s.hist;
      EncodeAllAppend(h.flushed, h.waiting);
      assert forall f :: f in h.flushed + h.waiting ==> f in h.flushed || f in h.waiting;
    }
  }

  lemma NextKeepsSessionInv(s: State, e: Event)
    requires SessionInv(s) && Enabled(s, e) && (s.connected ==> Dec.Inv(s.dec))
    ensures Asserts(s, e) && SessionInv(Next(s, e))
  {
  }

  lemma NextKeepsReceiveInv(s: State, e: Event)
    requires SessionInv(s) && ReceiveInv(s) && Enabled(s, e) && Asserts(s, e)
    ensures ReceiveInv(Next(s, e))
  {
    hide Dec.Drain, Dec.Arrive;
    match e
    case Start(_) => FreshIsDrained(s.dec.sink);
    case Timer(_) => FreshIsDrained(s.dec.sink);
    case Data(bytes) => RecvKeepsReceiveInv(s, bytes);
    case _ =>
  }

  predicate OfSession(e: Event) { e.Start? || e.Timer? || e.Callback? || e.Data? || e.Force? }

  /** What connecting, receiving and reconnecting leave alone: the queue, and what was moved into
      a session as long as it lives. */
  predicate SendSideKept(s: State, r: State) {
    && r.sendbuf == s.sendbuf && r.sendBlocks == s.sendBlocks
    && r.hist.waiting == s.hist.waiting && r.hist.strayQueued == s.hist.strayQueued
    && r.hist.inQueue == s.hist.inQueue && r.hist.lost == s.hist.lost
    && (|| (r.hist.flushed == [] && (r.session.Some? ==> r.session.value.tx == []))
        || (&& r.hist.flushed == s.hist.flushed && r.hist.straySent == s.hist.straySent
            && (r.session.Some? ==> s.session.Some? && r.session.value.tx == s.session.value.tx)))
  }

  lemma SessionEventsKeepSendSide(s: State, e: Event)
    requires Enabled(s, e) && Asserts(s, e) && OfSession(e)
    ensures SendSideKept(s, Next(s, e))
  {
    hide Dec.Drain, Dec.Arrive, Dec.Inv;
  }

  lemma NextKeepsSendInv(s: State, e: Event)
    requires SendInv(s) && Enabled(s, e) && Asserts(s, e)
    ensures SendInv(Next(s, e))
  {
    hide EncodeAll, QueueSend, Flush, Enabled, Asserts, Next, SendInv, SendSideKept;
    if OfSession(e) {
      SessionEventsKeepSendSide(s, e);
      KeptSendSide(s, Next(s, e));
    } else {
      OutgoingKeepsSendInv(s, e);
    }
  }

  lemma KeptSendSide(s: State, r: State)
    requires SendSideKept(s, r)
    ensures SendInv(s) ==> SendInv(r)
    ensures FlagInv(s) ==> FlagInv(r)
  {
    hide EncodeAll;
    EncodeNothing();
  }

  lemma OutgoingKeepsSendInv(s: State, e: Event)
    requires SendInv(s) && Enabled(s, e) && Asserts(s, e) && !OfSession(e)
    ensures SendInv(Next(s, e))
  {
    hide EncodeAll, QueueSend, Flush;
    match e
    case Queue(id, body, ok) => QueueKeepsSendInv(s, id, body, ok);
    case FlushAll(backlog, ok) => FlushKeepsSendInv(s, backlog, ok);
    case _ =>
  }

  lemma NextKeepsFlagInv(s: State, e: Event)
    requires FlagInv(s) && Enabled(s, e) && Asserts(s, e)
    ensures FlagInv(Next(s, e))
  {
    hide Enabled, Asserts, Next, FlagInv, SendSideKept;
    if OfSession(e) {
      SessionEventsKeepSendSide(s, e);
      KeptSendSide(s, Next(s, e));
    } else {
      OutgoingKeepsFlagInv(s, e);
    }
  }

  lemma OutgoingKeepsFlagInv(s: State, e: Event)
    requires FlagInv(s) && Enabled(s, e) && Asserts(s, e) && !OfSession(e)
    ensures FlagInv(Next(s, e))
  {
    hide Encode;
  }

  /** A refused message changes nothing: neither the queue, nor a flag, nor a counter. */
  lemma RefusedQueueChangesNothing(s: State, id: u16, body: seq<byte>, expandOk: bool)
    requires id in s.sendBlocks
    ensures QueueCheck(s, id, expandOk) != Ok <==> QueueSend(s, id, body, expandOk) == s
  {
    if QueueCheck(s, id, expandOk) == Ok {
      assert QueueSend(s, id, body, expandOk).sendBlocks[id].count == s.sendBlocks[id].count + 1;
    }
  }

  /** When a message is refused, and for what; the queue's limit counts only with a connection. */
  lemma RefusedFor(s: State, id: u16, expandOk: bool)
    requires id in s.sendBlocks
    ensures var r, full := QueueCheck(s, id, expandOk), 0 < s.maxSend <= |s.sendbuf|;
            && (r == AlreadyQueued <==> s.connected && s.sendBlocks[id].queued)
            && (r == WouldExceed <==> s.connected && !s.sendBlocks[id].queued && full)
            && (r == OutOfMemory <==> s.connected && !s.sendBlocks[id].queued && !full && !expandOk)
            && r != MoveFailed
  {
  }

  /** When a flush is refused, and when it fails. */
  lemma FlushRefusedFor(s: State, backlog: nat, moveOk: bool)
    ensures var r, full := FlushCheck(s, backlog, moveOk), 0 < s.maxSend <= backlog;
            && (r == WouldExceed <==> s.connected && full)
            && (r == MoveFailed <==> s.connected && !full && !moveOk)
            && (r == Ok || r == WouldExceed || r == MoveFailed)
  {
  }

  /** Every flagged block has a message in the queue. */
  predicate FlagsMeanQueued(s: State) {
    forall id :: id in s.sendBlocks && s.sendBlocks[id].queued ==> id in s.hist.inQueue
  }

  /** Only a failed move breaks that, and it does unless no block is flagged. */
  lemma OnlyFailedMovesStrand(s: State, e: Event)
    requires FlagsMeanQueued(s) && Enabled(s, e) && Asserts(s, e)
    ensures !FlagsMeanQueued(Next(s, e)) <==>
            && e.FlushAll? && FlushCheck(s, e.backlog, e.moveOk) == MoveFailed
            && exists id :: id in s.sendBlocks && s.sendBlocks[id].queued
  {
    if OfSession(e) {
      hide Enabled, Asserts, Next;
      SessionEventsKeepSendSide(s, e);
    } else {
      OutgoingStrands(s, e);
    }
  }

  lemma OutgoingStrands(s: State, e: Event)
    requires FlagsMeanQueued(s) && Enabled(s, e) && Asserts(s, e) && !OfSession(e)
    ensures !FlagsMeanQueued(Next(s, e)) <==>
            && e.FlushAll? && FlushCheck(s, e.backlog, e.moveOk) == MoveFailed
            && exists id :: id in s.sendBlocks && s.sendBlocks[id].queued
  {
    hide Encode;
  }

  /** After one failed move the queue is empty and its block is refused as queued. */
  lemma FailedMoveStrands(sink: Dec.Sink, body: seq<byte>)
    ensures var s0 := EventCb(Connect(Initial(sink, 0), Initiated), Connected);
            var s1 := Flush(QueueSend(GetSend(s0, 7), 7, body, true), 0, false);
            s1.sendbuf == [] && s1.hist.inQueue == {} && QueueCheck(s1, 7, true) == AlreadyQueued
  {
  }

  /** A queue of whole frames stays one exactly when the message is queued with a connection,
      or its body happens to be whole frames itself. */
  lemma QueueKeepsFramingIff(s: State, id: u16, body: seq<byte>, expandOk: bool)
    requires id in s.sendBlocks && IsFramed(s.sendbuf) && |body| < 0x1_0000_0000
    ensures IsFramed(QueueSend(s, id, body, expandOk).sendbuf) <==> s.connected || IsFramed(body)
  {
    var f := Frame(id, body);
    ParseAppend(s.sendbuf, Encode(f));
    ParseAppend(s.sendbuf, body);
    FramedIffFits(f);
  }

  /** One byte queued without a connection, and the queue is no longer frames. */
  lemma DisconnectedQueueLosesFraming(sink: Dec.Sink)
    ensures var s := GetSend(Initial(sink, 0), 7);
            IsFramed(s.sendbuf) && !IsFramed(QueueSend(s, 7, [0], true).sendbuf)
  {
    var s := GetSend(Initial(sink, 0), 7);
    QueueKeepsFramingIff(s, 7, [0], true);
  }
}

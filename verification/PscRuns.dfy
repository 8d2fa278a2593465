/** Runs of the session machine: what the events of a run, and nothing else, make of the driver. */
module PscRuns {
  import opened Framing
  import opened Chunks
  import opened PscSession
  import Dec = PscDecoder

  ghost predicate IsRun(states: seq<State>, events: seq<Event>) {
    && |states| == |events| + 1
    && (exists sink, maxSend :: states[0] == Initial(sink, maxSend))
    && forall i :: 0 <= i < |events| ==>
         && Enabled(states[i], events[i])
         && (Asserts(states[i], events[i]) ==> states[i + 1] == Next(states[i], events[i]))
  }

  /** In every run, every state keeps the invariant and every event finds its asserts true. */
  lemma {:induction false} RunsAreSafe(states: seq<State>, events: seq<Event>, k: nat)
    requires IsRun(states, events) && k < |states|
    ensures Inv(states[k])
    ensures k < |events| ==> Asserts(states[k], events[k])
  {
    if k == 0 {
      EncodeNothing();
    } else {
      var s, e := states[k - 1], events[k - 1];
      RunsAreSafe(states, events, k - 1);
      NextKeepsSessionInv(s, e);
      NextKeepsReceiveInv(s, e);
      NextKeepsSendInv(s, e);
      NextKeepsFlagInv(s, e);
    }
    if k < |events| { NextKeepsSessionInv(states[k], events[k]); }
  }

  // ----- history, from the events -----

  /** A message is not refused. */
  predicate Taken(s: State, e: Event)
    requires e.Queue? && e.id in s.sendBlocks
  {
    s.connected ==> !s.sendBlocks[e.id].queued && !(0 < s.maxSend <= |s.sendbuf|) && e.expandOk
  }

  /** A flush that is not refused. */
  predicate Flushes(s: State, e: Event)
    requires e.FlushAll?
  {
    s.connected && !(0 < s.maxSend <= e.backlog)
  }

  predicate Connects(e: Event) { e.Start? || e.Timer? }

  function NotedConnect(h: History, s: State, o: ConnectOutcome): History {
    h.(started := true, dead := o == NoMemory, rx := [], sink0 := s.dec.sink, flushed := [], straySent := false)
  }

  /** What one event, met in state s, adds to the history. */
  function Noted(h: History, s: State, e: Event): History
    requires Enabled(s, e)
  {
    match e
    case Start(o) => NotedConnect(h, s, o)
    case Timer(o) => NotedConnect(h, s, o)
    case Data(bytes) => h.(rx := h.rx + bytes)
    case Queue(id, body, _) =>
      if !Taken(s, e) then h
      else if s.connected && |body| < 0x1_0000_0000 then
        h.(inQueue := h.inQueue + {id}, waiting := h.waiting + [Frame(id, body)])
      else h.(inQueue := h.inQueue + {id}, strayQueued := h.strayQueued || body != [])
    case FlushAll(_, moveOk) =>
      if !Flushes(s, e) then h
      else if moveOk then
        h.(flushed := h.flushed + h.waiting, straySent := h.straySent || h.strayQueued,
           waiting := [], strayQueued := false, inQueue := {}, lost := {})
      else h.(waiting := [], strayQueued := false, inQueue := {}, lost := h.lost + h.inQueue)
    case _ => h
  }

  /** The history of a run up to its k-th event. */
  ghost function Past(states: seq<State>, events: seq<Event>, k: nat): History
    requires k <= |events| && IsRun(states, events)
  {
    if k == 0 then History(false, false, [], states[0].dec.sink, [], [], false, false, {}, {})
    else Noted(Past(states, events, k - 1), states[k - 1], events[k - 1])
  }

  lemma NextNotes(s: State, e: Event)
    requires Enabled(s, e) && Asserts(s, e)
    ensures Next(s, e).hist == Noted(s.hist, s, e)
    ensures Next(s, e).maxSend == s.maxSend
  {
    hide Dec.Drain, Dec.Arrive, Dec.Inv, Encode;
  }

  lemma {:induction false} HistoryIsPast(states: seq<State>, events: seq<Event>, k: nat)
    requires IsRun(states, events) && k < |states|
    ensures states[k].hist == Past(states, events, k) && states[k].maxSend == states[0].maxSend
  {
    hide Next, Asserts, Enabled, Noted, Inv;
    if k > 0 {
      HistoryIsPast(states, events, k - 1);
      RunsAreSafe(states, events, k - 1);
      NextNotes(states[k - 1], events[k - 1]);
    }
  }

  // ----- the session -----

  /** The events that end a session: an error, the operator's request once it is connected, and
      bytes that do not go on as frames. */
  predicate EndsSession(s: State, e: Event) {
    || (e.Callback? && e.e == Failed)
    || (e.Force? && s.connected)
    || (e.Data? && Parse(s.hist.rx + e.bytes).bad)
  }

  predicate Initiates(e: Event) { Connects(e) && e.outcome == Initiated }

  lemma FailsOnBadHeader(s: State, bytes: seq<byte>)
    requires ReceiveInv(s) && s.session.Some?
    ensures Dec.Inv(s.dec) && (Dec.Drain(Dec.Arrive(s.dec, bytes)).failed <==> Parse(s.hist.rx + bytes).bad)
  {
    hide Dec.Drain;
    var d0, b := Dec.Fresh(s.hist.sink0), s.hist.rx + bytes;
    Dec.DrainArrive(Dec.Arrive(d0, s.hist.rx), bytes);
    Dec.ArriveArrive(d0, s.hist.rx, bytes);
    assert [] + b == b;
    Dec.DrainIsParse(d0.(buf := b));
    var p := Parse(b);
    Dec.ThroughAllIdle(d0, p.frames);
    BadMeansBadHeader(b);
    assert d0.(buf := []) == d0;
  }

  lemma {:induction false} BadMeansBadHeader(b: seq<byte>)
    ensures Parse(b).bad <==> |Parse(b).tail| >= HEADER_SIZE && !HeaderOk(Parse(b).tail)
    decreases |b|
  {
    hide HeaderOk;
    if HEADER_SIZE <= |b| && HeaderOk(b) && HEADER_SIZE + HeaderLen(b) <= |b| {
      BadMeansBadHeader(b[HEADER_SIZE + HeaderLen(b)..]);
    }
  }

  /** Every event does to the session, the timer and the connected flag what it must, in every
      reachable state: */
  ghost predicate Moves(s: State, e: Event, r: State) {
    // what ends a session arms the timer, which then can fire
    && (s.session.Some? && EndsSession(s, e) ==>
          r.session.None? && r.timerActive && !r.connected && Enabled(r, Timer(Initiated)))
    && (s.session.Some? ==> (r.session.None? <==> EndsSession(s, e)))
    // only connecting begins one, or arms the timer again, or gives up
    && (s.session.None? ==> (r.session.Some? <==> Initiates(e)))
    && (r.timerActive <==>
          || (s.session.Some? && EndsSession(s, e))
          || (Connects(e) && e.outcome == NotInitiated)
          || (s.timerActive && !e.Timer?))
    && (r.connected <==> (e.Callback? && e.e == Connected) || (s.connected && !EndsSession(s, e)))
    && r.conncount == s.conncount + if e.Callback? && e.e == Connected then 1 else 0
  }

  lemma NextMoves(s: State, e: Event)
    requires SessionInv(s) && ReceiveInv(s) && Enabled(s, e) && Asserts(s, e)
    ensures Moves(s, e, Next(s, e))
  {
    hide Dec.Drain, Dec.Arrive, Dec.Inv, Parse, Encode;
    if e.Data? { FailsOnBadHeader(s, e.bytes); }
  }

  /** In every run: exactly an error, the operator's request while connected, and bytes that do
      not go on as frames end a session; the timer is then armed and no data can come until it
      has fired. No other event ends one, and only connecting begins one. */
  lemma SessionsEndAndBegin(states: seq<State>, events: seq<Event>, k: nat)
    requires IsRun(states, events) && k < |events|
    ensures Moves(states[k], events[k], states[k + 1])
    ensures states[k].hist.rx == Past(states, events, k).rx
  {
    hide Moves, Next, Enabled;
    RunsAreSafe(states, events, k);
    HistoryIsPast(states, events, k);
    NextMoves(states[k], events[k]);
  }

  /** Once connecting has begun, a session or the timer keeps the driver alive, and never
      both; with neither exactly when allocating a session failed. */
  lemma ExactlyOneAlive(states: seq<State>, events: seq<Event>, k: nat)
    requires IsRun(states, events) && k < |states| && Past(states, events, k).started
    ensures var s, h := states[k], Past(states, events, k);
            && (!h.dead <==> (s.session.Some? <==> !s.timerActive))
            && (h.dead ==> !s.connected && s.session.None? && !s.timerActive)
            && (s.connected ==> s.session.Some?)
  {
    HistoryIsPast(states, events, k);
    RunsAreSafe(states, events, k);
  }

  /** No delivered message mixes two sessions: at any time since the first connect, what the log
      gained since the last one is what the reference parser finds in the bytes received since,
      also when a bad header or an error has ended that session. */
  lemma SessionIsolation(states: seq<State>, events: seq<Event>, k: nat)
    requires IsRun(states, events) && k < |states| && Past(states, events, k).started
    ensures var s, h := states[k], Past(states, events, k);
            var p := Parse(h.rx);
            && s.dec.sink == Dec.Unfinished(Dec.ThroughAll(Dec.Fresh(h.sink0), p.frames), p.tail).sink
            && s.dec.sink.log == h.sink0.log + Dec.Delivered(h.sink0.blocks.Keys, p.frames)
  {
    RunsAreSafe(states, events, k);
    HistoryIsPast(states, events, k);
    hide IsRun;
    var s := states[k];
    var d := Dec.Fresh(s.hist.sink0);
    assert d.buf + s.hist.rx == s.hist.rx;
    Dec.DrainIsParse(d.(buf := s.hist.rx));
    Dec.ThroughAllLog(d, Parse(s.hist.rx).frames);
  }

  /** Reading never stalls: the bytes kept are fewer than the next step needs, that need is
      the callback threshold, and the point where libevent stops reading lies above it. */
  lemma NoReceiveStall(states: seq<State>, events: seq<Event>, k: nat)
    requires IsRun(states, events) && k < |states| && states[k].session.Some?
    ensures var s, t := states[k], states[k].session.value;
            |s.dec.buf| < t.low == (if s.dec.haveHead then s.dec.bodylen as nat else HEADER_SIZE) < t.high
            && t.high == if t.low >= 1048576 then t.low + 1 else 1048576
  {
    RunsAreSafe(states, events, k);
  }

  // ----- sending -----

  /** The bytes in the queue: those of the messages taken since it was last emptied. */
  ghost function QueuedBytes(states: seq<State>, events: seq<Event>, k: nat): seq<byte>
    requires k <= |events| && IsRun(states, events)
  {
    if k == 0 then []
    else
      var s, e, before := states[k - 1], events[k - 1], QueuedBytes(states, events, k - 1);
      match e
      case Queue(id, body, _) =>
        if !Taken(s, e) then before
        else if s.connected then before + Header(id, Low32(|body|)) + body
        else before + body
      case FlushAll(_, _) => if Flushes(s, e) then [] else before
      case _ => before
  }

  /** The bytes given to the session: what the queue held at each flush since the last connect. */
  ghost function SentBytes(states: seq<State>, events: seq<Event>, k: nat): seq<byte>
    requires k <= |events| && IsRun(states, events)
  {
    if k == 0 then []
    else
      var s, e, before := states[k - 1], events[k - 1], SentBytes(states, events, k - 1);
      if Connects(e) then []
      else if e.FlushAll? && Flushes(s, e) && e.moveOk then before + QueuedBytes(states, events, k - 1)
      else before
  }

  /** How many messages of a block were taken. */
  ghost function TakenCount(states: seq<State>, events: seq<Event>, k: nat, id: u16): nat
    requires k <= |events| && IsRun(states, events)
  {
    if k == 0 then 0
    else
      var s, e := states[k - 1], events[k - 1];
      TakenCount(states, events, k - 1, id) + if e.Queue? && e.id == id && Taken(s, e) then 1 else 0
  }

  lemma NextSends(s: State, e: Event)
    requires Enabled(s, e) && Asserts(s, e) && (s.connected ==> s.session.Some?)
    ensures var r := Next(s, e);
            && r.sendbuf == (match e
                 case Queue(id, body, _) =>
                   if !Taken(s, e) then s.sendbuf
                   else if s.connected then s.sendbuf + Header(id, Low32(|body|)) + body
                   else s.sendbuf + body
                 case FlushAll(_, _) => if Flushes(s, e) then [] else s.sendbuf
                 case _ => s.sendbuf)
            && (r.session.Some? ==>
                  r.session.value.tx ==
                  if Connects(e) then []
                  else (if s.session.Some? then s.session.value.tx else [])
                       + if e.FlushAll? && Flushes(s, e) && e.moveOk then s.sendbuf else [])
            && (r.session.Some? && !Connects(e) ==> s.session.Some?)
  {
    hide Dec.Drain, Dec.Arrive, Dec.Inv, Header, Unqueued;
    if e.Queue? && Taken(s, e) && s.connected {
      var h := Header(e.id, Low32(|e.body|));
      assert s.sendbuf + (h + e.body) == s.sendbuf + h + e.body;
    }
  }

  /** The queue and the session hold, byte for byte, what the events of the run put there. */
  lemma {:induction false} SentIsWhatWasQueued(states: seq<State>, events: seq<Event>, k: nat)
    requires IsRun(states, events) && k < |states|
    ensures states[k].sendbuf == QueuedBytes(states, events, k)
    ensures states[k].session.Some? ==> states[k].session.value.tx == SentBytes(states, events, k)
  {
    hide Next, Asserts, Enabled, Inv, Taken, Flushes, Header;
    if k > 0 {
      var s, e := states[k - 1], events[k - 1];
      SentIsWhatWasQueued(states, events, k - 1);
      RunsAreSafe(states, events, k - 1);
      assert s.connected ==> s.session.Some? by { ConnectedHasSession(s); }
      NextSends(s, e);
      assert s.session.Some? ==> s.session.value.tx + [] == s.session.value.tx;
    }
  }

  lemma ConnectedHasSession(s: State)
    requires Inv(s)
    ensures s.connected ==> s.session.Some?
  {
  }

  lemma NextCounts(s: State, e: Event, id: u16)
    requires Enabled(s, e) && Asserts(s, e)
    ensures var r := Next(s, e);
            && (id in s.sendBlocks ==> id in r.sendBlocks)
            && (id in r.sendBlocks ==>
                  r.sendBlocks[id].count ==
                  (if id in s.sendBlocks then s.sendBlocks[id].count else 0)
                  + if e.Queue? && e.id == id && Taken(s, e) then 1 else 0)
  {
    hide Dec.Drain, Dec.Arrive, Dec.Inv, Encode;
  }

  /** A send block counts the messages of its own that were taken. */
  lemma {:induction false} TakenAreCounted(states: seq<State>, events: seq<Event>, k: nat, id: u16)
    requires IsRun(states, events) && k < |states|
    ensures var n := TakenCount(states, events, k, id);
            if id in states[k].sendBlocks then states[k].sendBlocks[id].count == n else n == 0
  {
    hide Next, Asserts, Inv, Taken;
    if k > 0 {
      TakenAreCounted(states, events, k - 1, id);
      RunsAreSafe(states, events, k - 1);
      NextCounts(states[k - 1], events[k - 1], id);
    }
  }

  /** With a limit, and every message queued with a connection, the queue exceeds the limit by
      less than one message. */
  lemma {:induction false} QueueStaysBounded(states: seq<State>, events: seq<Event>, k: nat, longest: nat)
    requires IsRun(states, events) && k < |states| && states[0].maxSend > 0
    requires forall i :: 0 <= i < |events| && events[i].Queue? ==> states[i].connected && |events[i].body| <= longest
    ensures |states[k].sendbuf| < states[0].maxSend + HEADER_SIZE + longest
  {
    hide Next, Asserts, Inv, Header;
    if k > 0 {
      var s := states[k - 1];
      QueueStaysBounded(states, events, k - 1, longest);
      RunsAreSafe(states, events, k - 1);
      HistoryIsPast(states, events, k - 1);
      assert s.connected ==> s.session.Some? by { ConnectedHasSession(s); }
      NextSends(s, events[k - 1]);
    }
  }

  /** What a session was given is the frames that were queued with a connection, taken, and
      flushed since its connect, unless something else went into this very session; and the
      peer, however the bytes are cut, decodes them as exactly these frames, in order. */
  lemma PeerDecodesFlushed(states: seq<State>, events: seq<Event>, k: nat, sink: Dec.Sink, chunks: seq<seq<byte>>)
    requires IsRun(states, events) && k < |states| && states[k].session.Some? && !Past(states, events, k).straySent
    requires Flatten(chunks) == states[k].session.value.tx
    ensures var r, fs := Dec.FeedAll(Dec.Fresh(sink), chunks), Past(states, events, k).flushed;
            && SentBytes(states, events, k) == EncodeAll(fs)
            && r.buf == [] && !r.failed && !r.haveHead
            && r.sink.log == sink.log + Dec.Delivered(sink.blocks.Keys, fs)
  {
    RunsAreSafe(states, events, k);
    HistoryIsPast(states, events, k);
    SentIsWhatWasQueued(states, events, k);
    hide IsRun;
    Dec.RoundTrip(sink, states[k].hist.flushed, chunks);
  }

  /** In every state of every run a block is flagged exactly if it has a message in the queue, or
      had one in it when a move failed, since the last flush. */
  lemma FlaggedIff(states: seq<State>, events: seq<Event>, k: nat, id: u16)
    requires IsRun(states, events) && k < |states| && id in states[k].sendBlocks
    ensures var s, h := states[k], Past(states, events, k);
            && (s.sendBlocks[id].queued <==> id in h.inQueue || id in h.lost)
            && (FlagsMeanQueued(s) <==> h.lost <= h.inQueue)
            && (h.inQueue == {} ==> s.sendbuf == [])
  {
    RunsAreSafe(states, events, k);
    HistoryIsPast(states, events, k);
  }
}

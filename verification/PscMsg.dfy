/** The blocking message library of the target side: whole transfers made of short ones,
    and messages made of whole transfers. */
module PscMsg {
  import opened Framing
  import opened Chunks

  type Errno = e: int | e > 0 witness 5
  const EIO: Errno := 5
  const EAGAIN: Errno := 11
  const ENOTCONN: Errno := 107

  /** How one send() or recv() goes: it moves at most n bytes, or fails, for good or, like a
      receive timeout, just this once. */
  datatype Io = Part(n: nat) | Fault(errno: Errno, lasting: bool)

  /** Closed: the peer will send no more. */
  datatype End = Open | Closed | Broken(errno: Errno)

  // ----- receiving, as a function of the stream -----

  /** The receiving side of a socket: all the peer will ever have sent and not been read, and
      how the coming calls go (in full once the plan is used up). */
  datatype Stream = Stream(input: seq<byte>, plan: seq<Io>, end: End)

  /** What recv() returns: n bytes, or a failure if errno is not 0. */
  datatype Received = Received(s: Stream, n: nat, errno: nat)

  function Arrived(s: Stream, n: nat): Received
    requires n <= |s.input|
  {
    Received(s.(input := s.input[n..], end := if n == 0 then Closed else s.end), n, 0)
  }

  /** One recv(). */
  function TakeSome(s: Stream, want: nat): (r: Received)
    requires want > 0
    ensures r.n <= want && r.n <= |s.input| && r.s.input == s.input[r.n..]
    ensures r.errno != 0 ==> r.n == 0
  {
    match s.end
    case Broken(e) => Received(s, 0, e)
    case Closed => Received(s, 0, 0)
    case Open =>
      if s.plan == [] then Arrived(s, Min(want, |s.input|))
      else
        var s' := s.(plan := s.plan[1..]);
        match s.plan[0]
        case Part(m) => Arrived(s', Min(m, Min(want, |s.input|)))
        case Fault(e, lasting) => Received(s'.(end := if lasting then Broken(e) else Open), 0, e)
  }

  datatype Taken = Taken(s: Stream, n: nat, ret: nat)

  /** psc_recvall: n bytes were taken, all of them exactly if it returned 0. */
  function TakeAll(s: Stream, len: nat): (r: Taken)
    ensures r.n <= len && r.n <= |s.input| && r.s.input == s.input[r.n..]
    ensures r.ret == 0 <==> r.n == len
    decreases len
  {
    if len == 0 then Taken(s, 0, 0)
    else
      var c := TakeSome(s, len);
      if c.n == 0 then Taken(c.s, 0, if c.errno != 0 then c.errno else ENOTCONN)
      else
        var r := TakeAll(c.s, len - c.n);
        Taken(r.s, c.n + r.n, r.ret)
  }

  const SCRATCH := 128

  /** past: how many bytes land behind the end of the scratch buffer. */
  datatype Skipped = Skipped(s: Stream, ret: nat, past: nat)

  /** psc_recvskip. The loop ends when a pass fails, too, and the last call then asks for all
      that is left, more than the scratch buffer has room for. */
  function TakeSkip(s: Stream, len: nat): Skipped
    decreases len
  {
    if len <= SCRATCH then
      var r := TakeAll(s, len);
      Skipped(r.s, r.ret, 0)
    else
      var r := TakeAll(s, SCRATCH);
      if r.ret == 0 then TakeSkip(r.s, len - SCRATCH)
      else
        var r' := TakeAll(r.s, len);
        Skipped(r'.s, r'.ret, if r'.n > SCRATCH then r'.n - SCRATCH else 0)
  }

  /** named: what *msgid and *msglen are set to; stored: what the caller's buffer begins with. */
  datatype Message = Message(s: Stream, ret: nat, named: Option<(u16, u32)>, stored: seq<byte>, past: nat)

  function TakeMsg(s: Stream, maxlen: u32): (m: Message)
    ensures |m.stored| <= maxlen
  {
    var h := TakeAll(s, HEADER_SIZE);
    if h.ret != 0 then Message(h.s, h.ret, None, [], 0)
    else if !HeaderOk(s.input) then Message(h.s, EIO, None, [], 0)
    else
      var mlen := HeaderLen(s.input);
      var rlen := Min(mlen, maxlen);
      var b := TakeAll(h.s, rlen);
      var stored := h.s.input[..b.n];
      if b.ret != 0 then Message(b.s, b.ret, None, stored, 0)
      else if rlen == mlen then Message(b.s, 0, Some((HeaderId(s.input), rlen)), stored, 0)
      else
        var k := TakeSkip(b.s, mlen - rlen);
        Message(k.s, k.ret, Some((HeaderId(s.input), rlen)), stored, k.past)
  }

  // ----- what a schedule lets through -----

  /** How many bytes come before a call that brings none; None if there is no such call. */
  function Flow(plan: seq<Io>): Option<nat> {
    if plan == [] then None
    else if !plan[0].Part? || plan[0].n == 0 then Some(0)
    else
      match Flow(plan[1..])
      case None => None
      case Some(k) => Some(plan[0].n + k)
  }

  predicate Smooth(plan: seq<Io>) { Flow(plan).None? }
  predicate LetsThrough(plan: seq<Io>, k: nat) { Smooth(plan) || Flow(plan).value >= k }

  /** The first call that brings nothing fails just this once, and behind it more comes through
      than the scratch buffer holds. */
  predicate Pauses(plan: seq<Io>) {
    plan != [] &&
    match plan[0]
    case Part(n) => n > 0 && Pauses(plan[1..])
    case Fault(_, lasting) => !lasting && LetsThrough(plan[1..], SCRATCH + 1)
  }

  lemma TakeAllStep(s: Stream, len: nat)
    ensures len == 0 ==> TakeAll(s, len) == Taken(s, 0, 0)
    ensures len > 0 ==>
              var c := TakeSome(s, len);
              TakeAll(s, len) == if c.n == 0 then Taken(c.s, 0, if c.errno != 0 then c.errno else ENOTCONN)
                                 else var r := TakeAll(c.s, len - c.n); Taken(r.s, c.n + r.n, r.ret)
  {
    hide TakeSome;
  }

  lemma {:induction false} TakesWhatFlows(s: Stream, len: nat, k: nat)
    requires s.end.Open? && k <= len && k <= |s.input| && LetsThrough(s.plan, k)
    ensures TakeAll(s, len).n >= k
    decreases len
  {
    hide TakeAll;
    TakeAllStep(s, len);
    if len > 0 && k > 0 {
      var c := TakeSome(s, len);
      if c.n < k { TakesWhatFlows(c.s, len - c.n, k - c.n); }
    }
  }

  lemma {:induction false} SmoothTakesAll(s: Stream, len: nat)
    requires s.end.Open? && Smooth(s.plan) && len <= |s.input|
    ensures var r := TakeAll(s, len); r.ret == 0 && r.s.end.Open? && Smooth(r.s.plan)
    decreases len
  {
    hide TakeAll;
    TakeAllStep(s, len);
    if len > 0 { SmoothTakesAll(TakeSome(s, len).s, len - TakeSome(s, len).n); }
  }

  lemma {:induction false} TakesNoMore(s: Stream, len: nat)
    ensures !s.end.Open? ==> TakeAll(s, len).n == 0
    ensures s.end.Open? && !Smooth(s.plan) ==> TakeAll(s, len).n <= Flow(s.plan).value
    decreases len
  {
    hide TakeAll;
    TakeAllStep(s, len);
    if len > 0 && TakeSome(s, len).n > 0 { TakesNoMore(TakeSome(s, len).s, len - TakeSome(s, len).n); }
  }

  /** A transfer uses up good calls, and at most one that brings nothing, at its end. */
  lemma {:induction false} TakeAllPlan(s: Stream, len: nat)
    requires s.end.Open? && len > 0
    ensures var r := TakeAll(s, len);
            && |r.s.plan| <= |s.plan| && (s.plan != [] ==> |r.s.plan| < |s.plan|)
            && (r.ret == 0 ==> r.s.end.Open? && (Pauses(r.s.plan) <==> Pauses(s.plan)))
            && (r.ret != 0 && r.s.end.Open? ==> (Pauses(s.plan) <==> LetsThrough(r.s.plan, SCRATCH + 1)))
            && (r.ret != 0 && len <= |s.input| && Pauses(s.plan) ==> r.s.end.Open?)
    decreases len
  {
    hide LetsThrough, TakeAll, TakeSome, Pauses;
    TakeSomePlan(s, len);
    TakeAllStep(s, len);
    var c := TakeSome(s, len);
    if 0 < c.n < len { TakeAllPlan(c.s, len - c.n); } else { TakeAllStep(c.s, len - c.n); }
  }

  lemma TakeSomePlan(s: Stream, want: nat)
    requires s.end.Open? && want > 0
    ensures var c := TakeSome(s, want);
            && |c.s.plan| <= |s.plan| && (s.plan != [] ==> |c.s.plan| < |s.plan|)
            && (c.n > 0 ==> c.s.end.Open? && (Pauses(c.s.plan) <==> Pauses(s.plan)))
            && (c.n == 0 && c.s.end.Open? ==> (Pauses(s.plan) <==> LetsThrough(c.s.plan, SCRATCH + 1)))
            && (c.n == 0 && s.input != [] && Pauses(s.plan) ==> c.s.end.Open?)
  {
    hide LetsThrough;
  }

  /** Why a transfer fails: by the fault of a call, or because the stream has ended. */
  lemma {:induction false} FailsAsACallDid(s: Stream, len: nat)
    requires s.end.Open?
    ensures var r := TakeAll(s, len);
            r.ret != 0 ==>
              match r.s.end
              case Broken(e) => r.ret == e && Fault(e, true) in s.plan
              case Closed => r.ret == 107
              case Open => r.ret > 0 && Fault(r.ret, false) in s.plan
    decreases len
  {
    hide TakeAll;
    TakeAllStep(s, len);
    if len > 0 && TakeSome(s, len).n > 0 { FailsAsACallDid(TakeSome(s, len).s, len - TakeSome(s, len).n); }
  }

  // ----- skipping -----

  /** Without an overrun, 0 means that exactly len bytes were dropped. */
  lemma {:induction false} SkipTakes(s: Stream, len: nat)
    ensures var k := TakeSkip(s, len);
            k.ret == 0 && k.past == 0 ==> len <= |s.input| && k.s.input == s.input[len..]
    decreases len
  {
    hide TakeAll;
    if len > SCRATCH && TakeAll(s, SCRATCH).ret == 0 {
      SkipTakes(TakeAll(s, SCRATCH).s, len - SCRATCH);
      assert len <= |s.input| ==> s.input[SCRATCH..][len - SCRATCH..] == s.input[len..];
    }
  }

  lemma {:induction false} SmoothSkip(s: Stream, len: nat)
    requires s.end.Open? && Smooth(s.plan) && len <= |s.input|
    ensures var k := TakeSkip(s, len); k.ret == 0 && k.past == 0 && k.s.end.Open? && Smooth(k.s.plan)
    decreases len
  {
    hide TakeAll, Smooth;
    SmoothTakesAll(s, Min(len, SCRATCH));
    if len > SCRATCH { SmoothSkip(TakeAll(s, SCRATCH).s, len - SCRATCH); }
  }

  lemma {:induction false} NoPauseNoOverrun(s: Stream, len: nat)
    requires s.end.Open? && !Pauses(s.plan)
    ensures TakeSkip(s, len).past == 0
    decreases len
  {
    hide TakeAll, Pauses;
    if len > SCRATCH {
      var r := TakeAll(s, SCRATCH);
      TakeAllPlan(s, SCRATCH);
      if r.ret == 0 { NoPauseNoOverrun(r.s, len - SCRATCH); } else { TakesNoMore(r.s, len); }
    }
  }

  lemma {:induction false} PauseOverruns(s: Stream, len: nat)
    requires s.end.Open? && Pauses(s.plan) && SCRATCH * (|s.plan| + 2) <= len <= |s.input|
    ensures TakeSkip(s, len).past > 0
    decreases len
  {
    hide TakeAll, LetsThrough;
    var r := TakeAll(s, SCRATCH);
    TakeAllPlan(s, SCRATCH);
    if r.ret == 0 { PauseOverruns(r.s, len - SCRATCH); } else { TakesWhatFlows(r.s, len, SCRATCH + 1); }
  }

  /** Skipping stays within its scratch buffer, whatever is sent and is to be skipped, exactly
      if the schedule has no such pause. */
  lemma ScratchIsEnoughIff(plan: seq<Io>)
    ensures (forall input: seq<byte>, len: nat :: TakeSkip(Stream(input, plan, Open), len).past == 0) <==> !Pauses(plan)
  {
    hide TakeSkip, Pauses;
    if Pauses(plan) {
      var len := SCRATCH * (|plan| + 2);
      var input: seq<byte> := seq(len, _ => 0);
      PauseOverruns(Stream(input, plan, Open), len);
      assert TakeSkip(Stream(input, plan, Open), len).past > 0;
    } else {
      forall input: seq<byte>, len: nat ensures TakeSkip(Stream(input, plan, Open), len).past == 0 {
        NoPauseNoOverrun(Stream(input, plan, Open), len);
      }
    }
  }

  /** Faults that last, as on a socket without a receive timeout, make no such pause. */
  lemma {:induction false} LastingFaultsNeverPause(plan: seq<Io>)
    requires forall i :: 0 <= i < |plan| ==> plan[i].Fault? ==> plan[i].lasting
    ensures !Pauses(plan)
  {
    if plan != [] { LastingFaultsNeverPause(plan[1..]); }
  }

  // ----- messages -----

  /** What one psc_recvmsg with room for maxlen bytes should read off the front of a stream:
      the id, the body as far as there is room, and the stream after the whole message. */
  datatype Read = Got(id: u16, body: seq<byte>, rest: seq<byte>) | Short | Garbled

  function ReadFrame(stream: seq<byte>, maxlen: nat): Read {
    if |stream| < HEADER_SIZE then Short
    else if !HeaderOk(stream) then Garbled
    else
      var n := HeaderLen(stream);
      if |stream| < HEADER_SIZE + n then Short
      else Got(HeaderId(stream), stream[HEADER_SIZE..HEADER_SIZE + Min(n, maxlen)], stream[HEADER_SIZE + n..])
  }

  /** Without an overrun, success means that the whole message is off the stream, however much
      of it was asked for, and its first bytes are stored. */
  lemma SuccessReadsMessage(s: Stream, maxlen: u32)
    ensures var m := TakeMsg(s, maxlen);
            m.ret == 0 && m.past == 0 ==>
              m.named.Some? && ReadFrame(s.input, maxlen) == Got(m.named.value.0, m.stored, m.s.input)
  {
    hide TakeAll, TakeSkip, HeaderOk, HeaderId, HeaderLen;
    var m := TakeMsg(s, maxlen);
    if m.ret == 0 && m.past == 0 {
      var mlen := HeaderLen(s.input);
      var b := TakeAll(TakeAll(s, HEADER_SIZE).s, Min(mlen, maxlen));
      if Min(mlen, maxlen) < mlen { SkipTakes(b.s, mlen - Min(mlen, maxlen)); }
    }
  }

  /** The id and the length are reported, and the body's first bytes are in the buffer, exactly
      if header and body were taken; then the skipping may still fail. */
  lemma ReportedIff(s: Stream, maxlen: u32)
    ensures var m := TakeMsg(s, maxlen);
            && (m.named.None? ==> m.ret != 0)
            && (m.named.Some? ==>
                  && |s.input| >= 8 && HeaderOk(s.input)
                  && var n := if HeaderLen(s.input) <= maxlen then HeaderLen(s.input) else maxlen;
                     |s.input| >= 8 + n && m.named.value == (HeaderId(s.input), n) && m.stored == s.input[8..8 + n])
  {
    hide TakeAll, TakeSkip, HeaderOk, HeaderId, HeaderLen;
    var h := TakeAll(s, HEADER_SIZE);
    if h.ret == 0 && HeaderOk(s.input) {
      var n := Min(HeaderLen(s.input), maxlen);
      assert h.s.input == s.input[8..];
      assert TakeAll(h.s, n).ret == 0 ==> h.s.input[..n] == s.input[8..8 + n];
    }
  }

  /** A wrong header is taken off the stream and reported as EIO. */
  lemma WrongHeaderIsEIO(s: Stream, maxlen: u32)
    requires s.end.Open? && Smooth(s.plan) && |s.input| >= 8 && !(s.input[0] == 'P' as int && s.input[1] == 'S' as int)
    ensures var m := TakeMsg(s, maxlen); m.ret == 5 && m.named.None? && m.s.input == s.input[8..] && m.past == 0
  {
    hide TakeAll, TakeSkip, Smooth;
    SmoothTakesAll(s, HEADER_SIZE);
    assert s.input[..2] == [s.input[0], s.input[1]];
  }

  /** An intact message is received under every schedule without faults. */
  lemma SmoothReadsMessage(s: Stream, maxlen: u32)
    requires s.end.Open? && Smooth(s.plan) && ReadFrame(s.input, maxlen).Got?
    ensures var m := TakeMsg(s, maxlen); m.ret == 0 && m.past == 0 && m.s.end.Open? && Smooth(m.s.plan)
  {
    hide TakeAll, TakeSkip, Smooth, HeaderOk, HeaderId, HeaderLen;
    var mlen := HeaderLen(s.input);
    var rlen := Min(mlen, maxlen);
    SmoothTakesAll(s, HEADER_SIZE);
    var h := TakeAll(s, HEADER_SIZE);
    SmoothTakesAll(h.s, rlen);
    var b := TakeAll(h.s, rlen);
    SmoothSkip(b.s, mlen - rlen);
  }

  /** So a schedule without such a pause, and one with only lasting faults, overruns nothing. */
  lemma NoPauseIsSafe(s: Stream, maxlen: u32)
    requires s.end.Open?
    requires !Pauses(s.plan) || forall i :: 0 <= i < |s.plan| ==> s.plan[i].Fault? ==> s.plan[i].lasting
    ensures TakeMsg(s, maxlen).past == 0
  {
    hide TakeAll, TakeSkip, Pauses, HeaderOk, HeaderId, HeaderLen;
    if Pauses(s.plan) { LastingFaultsNeverPause(s.plan); }
    var h := TakeAll(s, HEADER_SIZE);
    TakeAllPlan(s, HEADER_SIZE);
    if h.ret == 0 && HeaderOk(s.input) {
      var rlen, mlen := Min(HeaderLen(s.input), maxlen), HeaderLen(s.input);
      if rlen == 0 { TakeAllStep(h.s, 0); } else { TakeAllPlan(h.s, rlen); }
      if TakeAll(h.s, rlen).ret == 0 && rlen < mlen { NoPauseNoOverrun(TakeAll(h.s, rlen).s, mlen - rlen); }
    }
  }

  /** Room for maxlen bytes is safe against every peer and every schedule exactly if no message
      can be longer by more than the scratch buffer. */
  lemma RoomIsSafeIff(maxlen: u32)
    ensures (forall s: Stream :: TakeMsg(s, maxlen).past == 0) <==> maxlen + 128 >= 0x1_0000_0000 - 1
  {
    hide TakeMsg;
    if maxlen + SCRATCH >= 0x1_0000_0000 - 1 {
      forall s: Stream ensures TakeMsg(s, maxlen).past == 0 { ShortTailIsSafe(s, maxlen); }
    } else {
      var f := Frame(0, seq(maxlen + SCRATCH + 1, _ => 0));
      TimeoutOverruns(maxlen, f, [0]);
      assert TakeMsg(Paused(maxlen, f, [0]), maxlen).past > 0;
    }
  }

  lemma ShortTailIsSafe(s: Stream, maxlen: u32)
    requires maxlen + SCRATCH >= 0x1_0000_0000 - 1
    ensures TakeMsg(s, maxlen).past == 0
  {
  }

  lemma TakesPart(s: Stream, len: nat, rest: seq<Io>)
    requires s.end.Open? && s.plan == [Part(len)] + rest && 0 < len <= |s.input|
    ensures TakeAll(s, len) == Taken(Stream(s.input[len..], rest, Open), len, 0)
  {
    assert TakeSome(s, len) == Received(Stream(s.input[len..], rest, Open), len, 0);
  }

  const PAUSE := [Part(1), Fault(EAGAIN, false)]

  /** Of 129 bytes to skip one arrives, then there is a timeout: 130 are taken. */
  lemma PausedSkip(s: Stream)
    requires s.end.Open? && s.plan == PAUSE && |s.input| >= 130
    ensures TakeSkip(s, SCRATCH + 1) == Skipped(Stream(s.input[130..], [], Open), 0, 1)
  {
    hide TakeAll;
    var s1 := Stream(s.input[1..], [Fault(EAGAIN, false)], Open);
    var s2 := Stream(s.input[1..], [], Open);
    var s3 := Stream(s.input[130..], [], Open);
    assert TakeSome(s, SCRATCH) == Received(s1, 1, 0);
    TakeAllStep(s, SCRATCH);
    TakeAllStep(s1, SCRATCH - 1);
    assert TakeSome(s2, SCRATCH + 1) == Received(s3, SCRATCH + 1, 0);
    TakeAllStep(s2, SCRATCH + 1);
    TakeAllStep(s3, 0);
  }

  /** A message 129 bytes longer than the room, with a receive timeout after one of them. */
  function Paused(maxlen: u32, f: Frame, behind: seq<byte>): Stream {
    Stream(Encode(f) + behind, [Part(HEADER_SIZE)] + (if maxlen > 0 then [Part(maxlen)] else []) + PAUSE, Open)
  }

  /** It is reported as received, but the scratch buffer was overrun and the first byte of what
      follows the message is gone. */
  lemma TimeoutOverruns(maxlen: u32, f: Frame, behind: seq<byte>)
    requires |f.body| == maxlen + 129 && Fits(f) && behind != []
    ensures var s := Paused(maxlen, f, behind); var m := TakeMsg(s, maxlen);
            && m.ret == 0 && m.past == 1 && m.s.input == behind[1..]
            && ReadFrame(s.input, maxlen) == Got(f.id, f.body[..maxlen], behind)
  {
    hide TakeAll, TakeSkip, ReadFrame, Encode;
    var s, rest := Paused(maxlen, f, behind), f.body + behind;
    ReadOneEncoded(f, maxlen, behind);
    EncodedStarts(f, behind);
    var body := Stream(rest, s.plan[1..], Open);
    TakesPart(s, HEADER_SIZE, body.plan);
    var tail := Stream(rest[maxlen..], PAUSE, Open);
    if maxlen > 0 { TakesPart(body, maxlen, PAUSE); } else { TakeAllStep(body, 0); }
    PausedSkip(tail);
    assert rest[maxlen..][130..] == behind[1..];
  }

  lemma EncodedStarts(f: Frame, behind: seq<byte>)
    requires Fits(f)
    ensures var b := Encode(f) + behind;
            && |b| == HEADER_SIZE + |f.body| + |behind| && b[HEADER_SIZE..] == f.body + behind
            && HeaderOk(b) && HeaderId(b) == f.id && HeaderLen(b) == |f.body|
  {
    assert Encode(f) + behind == Header(f.id, |f.body|) + (f.body + behind);
    HeaderInverse(f.id, |f.body|, f.body + behind);
  }

  // ----- staying in sync -----

  /** Receives one message for each capacity, as long as that works. */
  function TakeEach(s: Stream, caps: seq<u32>): (seq<Frame>, Stream)
    decreases |caps|
  {
    if caps == [] then ([], s)
    else
      var m := TakeMsg(s, caps[0]);
      if m.ret != 0 || m.named.None? then ([], m.s)
      else
        var (fs, end) := TakeEach(m.s, caps[1..]);
        ([Frame(m.named.value.0, m.stored)] + fs, end)
  }

  function Truncated(fs: seq<Frame>, caps: seq<u32>): seq<Frame>
    requires |fs| == |caps|
  {
    seq(|fs|, i requires 0 <= i < |fs| => Frame(fs[i].id, fs[i].body[..Min(|fs[i].body|, caps[i])]))
  }

  lemma ReadOneEncoded(f: Frame, cap: nat, tail: seq<byte>)
    requires Fits(f)
    ensures ReadFrame(Encode(f) + tail, cap) == Got(f.id, f.body[..Min(|f.body|, cap)], tail)
  {
    hide Encode, HeaderOk, HeaderId, HeaderLen;
    var b, m := Encode(f) + tail, Min(|f.body|, cap);
    EncodedStarts(f, tail);
    assert b[HEADER_SIZE..HEADER_SIZE + m] == b[HEADER_SIZE..][..m] == f.body[..m];
    assert b[HEADER_SIZE + |f.body|..] == b[HEADER_SIZE..][|f.body|..] == tail;
  }

  /** Under every schedule without faults the messages of a stream are received one by one with
      their ids and bodies, even when some are cut to the room given for them, and what follows
      is left on the stream untouched. */
  lemma {:induction false} StaysInSync(fs: seq<Frame>, caps: seq<u32>, tail: seq<byte>, s: Stream)
    requires |fs| == |caps| && forall f :: f in fs ==> Fits(f)
    requires s.input == EncodeAll(fs) + tail && s.end.Open? && Smooth(s.plan)
    ensures var (got, end) := TakeEach(s, caps);
            got == Truncated(fs, caps) && end.input == tail && end.end.Open? && Smooth(end.plan)
    decreases |fs|
  {
    hide TakeMsg, ReadFrame, Smooth, EncodeAll, Encode;
    if fs == [] {
      EncodeNothing();
    } else {
      var f, rest := fs[0], EncodeAll(fs[1..]) + tail;
      assert fs == [f] + fs[1..];
      EncodeAllCons(f, fs[1..], tail);
      ReadOneEncoded(f, caps[0], rest);
      SmoothReadsMessage(s, caps[0]);
      SuccessReadsMessage(s, caps[0]);
      StaysInSync(fs[1..], caps[1..], tail, TakeMsg(s, caps[0]).s);
      assert Truncated(fs, caps) == [Truncated(fs, caps)[0]] + Truncated(fs[1..], caps[1..]);
    }
  }

  // ----- the socket -----

  /** A stream socket: the receiving side, what was sent, and how the coming send() calls go. */
  class Socket {
    var input: seq<byte>
    var plan: seq<Io>
    var end: End
    var output: seq<byte>
    var sends: seq<Io>

    ghost function View(): Stream
      reads this
    {
      Stream(input, plan, end)
    }

    method Recv(want: nat) returns (bytes: seq<byte>, errno: nat)
      requires want > 0
      modifies this`input, this`plan, this`end
      ensures var r := TakeSome(old(View()), want);
              View() == r.s && bytes == old(input)[..r.n] && errno == r.errno
    {
      bytes, errno := [], 0;
      if end.Broken? {
        return [], end.errno;
      } else if end.Closed? {
        return [], 0;
      }
      var n := Min(want, |input|);
      if plan != [] {
        var io := plan[0];
        plan := plan[1..];
        if io.Fault? {
          end := if io.lasting then Broken(io.errno) else Open;
          return [], io.errno;
        }
        n := Min(io.n, n);
      }
      bytes, input := input[..n], input[n..];
      end := if n == 0 then Closed else Open;
    }

    /** send(): how many bytes were taken, or a failure. */
    method Send(buf: seq<byte>) returns (n: nat, errno: nat)
      requires buf != []
      modifies this`output, this`sends, this`end
      ensures n <= |buf| && output == old(output) + buf[..n]
      ensures errno != 0 ==> n == 0
      ensures !old(end).Broken? && Smooth(old(sends)) ==> n > 0 && end == old(end) && Smooth(sends)
    {
      n, errno := |buf|, 0;
      if end.Broken? {
        n, errno := 0, end.errno;
      } else if sends != [] {
        var io := sends[0];
        sends := sends[1..];
        match io
        case Part(m) => n := Min(m, |buf|);
        case Fault(e, lasting) =>
          n, errno := 0, e;
          if lasting {
            end := Broken(e);
          }
      }
      output := output + buf[..n];
    }
  }

  // ----- sending -----

  method SendAll(sock: Socket, buf: seq<byte>) returns (ret: nat)
    modifies sock`output, sock`sends, sock`end
    ensures old(sock.output) <= sock.output <= old(sock.output) + buf
    ensures ret == 0 <==> sock.output == old(sock.output) + buf
    ensures !old(sock.end).Broken? && Smooth(old(sock.sends)) ==>
              ret == 0 && !sock.end.Broken? && Smooth(sock.sends)
  {
    hide Smooth;
    var rest := buf;
    ghost var n0 := 0;
    assert buf[..0] == [];
    while rest != []
      invariant n0 <= |buf| && rest == buf[n0..]
      invariant sock.output == old(sock.output) + buf[..n0]
      invariant !old(sock.end).Broken? && Smooth(old(sock.sends)) ==> !sock.end.Broken? && Smooth(sock.sends)
      decreases |rest|
    {
      var n, errno := sock.Send(rest);
      if errno != 0 {
        return errno;
      } else if n == 0 {
        return ENOTCONN;
      }
      assert buf[..n0] + rest[..n] == buf[..n0 + n];
      rest := rest[n..];
      n0 := n0 + n;
    }
    assert buf[..n0] == buf;
    return 0;
  }

  method SendHead(sock: Socket, msgid: u16, msglen: u32) returns (ret: nat)
    modifies sock`output, sock`sends, sock`end
    ensures old(sock.output) <= sock.output <= old(sock.output) + Header(msgid, msglen)
    ensures ret == 0 <==> sock.output == old(sock.output) + Header(msgid, msglen)
    ensures !old(sock.end).Broken? && Smooth(old(sock.sends)) ==>
              ret == 0 && !sock.end.Broken? && Smooth(sock.sends)
  {
    ret := SendAll(sock, Header(msgid, msglen));
  }

  method SendMsg(sock: Socket, msgid: u16, buf: seq<byte>) returns (ret: nat)
    requires |buf| < 0x1_0000_0000
    modifies sock`output, sock`sends, sock`end
    ensures old(sock.output) <= sock.output <= old(sock.output) + Encode(Frame(msgid, buf))
    ensures ret == 0 <==> sock.output == old(sock.output) + Encode(Frame(msgid, buf))
    ensures !old(sock.end).Broken? && Smooth(old(sock.sends)) ==> ret == 0
  {
    hide Header, Smooth;
    ghost var o, h := sock.output, Header(msgid, |buf|);
    assert o + Encode(Frame(msgid, buf)) == o + h + buf;
    ret := SendHead(sock, msgid, |buf|);
    if ret != 0 {
      return;
    }
    ret := SendAll(sock, buf);
  }

  /** A register id in front of the data. The length, four more, is computed in 32 bits. */
  method SendMsgSingle(sock: Socket, msgid: u16, regid: u32, buf: seq<byte>) returns (ret: nat)
    requires |buf| < 0x1_0000_0000
    modifies sock`output, sock`sends, sock`end
    ensures old(sock.output) <= sock.output <= old(sock.output) + Encode(Frame(msgid, BE32(regid) + buf))
    ensures ret == 0 <==> sock.output == old(sock.output) + Encode(Frame(msgid, BE32(regid) + buf))
    ensures !old(sock.end).Broken? && Smooth(old(sock.sends)) ==> ret == 0
  {
    hide Header, BE32, Smooth;
    ghost var f := Frame(msgid, BE32(regid) + buf);
    ghost var o, h := sock.output, Header(msgid, Low32(|buf| + 4));
    assert o + Encode(f) == o + h + BE32(regid) + buf;
    ret := SendHead(sock, msgid, Low32(|buf| + 4));
    if ret != 0 {
      return;
    }
    ret := SendAll(sock, BE32(regid));
    if ret != 0 {
      return;
    }
    ret := SendAll(sock, buf);
  }

  /** A single-register message can be read back exactly when its length fits 32 bits with the
      register id counted in. */
  lemma SingleReadsBackIff(msgid: u16, regid: u32, buf: seq<byte>)
    requires |buf| < 0x1_0000_0000
    ensures var f := Frame(msgid, BE32(regid) + buf);
            Parse(Encode(f)) == Parsed([f], [], false) <==> |buf| + 4 < 0x1_0000_0000
  {
    FramedIffFits(Frame(msgid, BE32(regid) + buf));
  }

  // ----- receiving -----

  /** Fills buf from at on; past counts what was written behind its end, which is not kept. */
  method RecvAll(sock: Socket, buf: array<byte>, at: nat, len: nat) returns (ret: nat, ghost past: nat)
    requires at <= buf.Length
    modifies sock`input, sock`plan, sock`end, buf
    ensures var r := TakeAll(old(sock.View()), len); var k := Min(r.n, buf.Length - at);
            && sock.View() == r.s && ret == r.ret && past == r.n - k
            && buf[..] == Blit(old(buf[..]), at, old(sock.input)[..k])
  {
    hide TakeSome, TakeAll, Blit;
    var rest: nat, n0: nat := len, 0;
    ghost var s0, b0, r := sock.View(), buf[..], TakeAll(sock.View(), len);
    ghost var room: nat, kept: nat := buf.Length - at, 0;
    BlitNothing(b0, at);
    assert s0.input[..0] == [];
    while rest > 0
      invariant n0 + rest == len && n0 <= |s0.input| && sock.input == s0.input[n0..]
      invariant var t := TakeAll(sock.View(), rest); r == Taken(t.s, n0 + t.n, t.ret)
      invariant kept == Min(n0, room) && buf[..] == Blit(b0, at, s0.input[..kept])
      decreases rest
    {
      TakeAllStep(sock.View(), rest);
      var bytes, errno := sock.Recv(rest);
      if errno != 0 {
        return errno, n0 - kept;
      } else if bytes == [] {
        return ENOTCONN, n0 - kept;
      }
      StoreChunk(buf, at, b0, s0.input, n0, bytes);
      n0, kept := n0 + |bytes|, Min(n0 + |bytes|, room);
      rest := rest - |bytes|;
    }
    TakeAllStep(sock.View(), 0);
    return 0, n0 - kept;
  }

  method StoreChunk(buf: array<byte>, at: nat, ghost b0: seq<byte>, ghost in0: seq<byte>, n0: nat, bytes: seq<byte>)
    requires at <= buf.Length == |b0| && n0 + |bytes| <= |in0| && bytes == in0[n0..n0 + |bytes|]
    requires buf[..] == Blit(b0, at, in0[..Min(n0, buf.Length - at)])
    modifies buf
    ensures buf[..] == Blit(b0, at, in0[..Min(n0 + |bytes|, buf.Length - at)])
  {
    var room: nat := buf.Length - at;
    if n0 < room {
      var k := Min(|bytes|, room - n0);
      WriteAt(buf, at + n0, bytes[..k]);
      BlitTwice(b0, at, in0[..n0], bytes[..k]);
      assert in0[..n0] + bytes[..k] == in0[..n0 + k];
    }
  }

  method RecvSkip(sock: Socket, len: nat) returns (ret: nat, ghost past: nat)
    modifies sock`input, sock`plan, sock`end
    ensures Skipped(sock.View(), ret, past) == TakeSkip(old(sock.View()), len)
  {
    hide TakeAll, Blit;
    var buf := new byte[SCRATCH];
    var rest: nat := len;
    while rest > SCRATCH
      invariant TakeSkip(sock.View(), rest) == TakeSkip(old(sock.View()), len)
    {
      ret, past := RecvAll(sock, buf, 0, SCRATCH);
      if ret != 0 {
        break;
      }
      rest := rest - SCRATCH;
    }
    ret, past := RecvAll(sock, buf, 0, rest);
  }

  method RecvHead(sock: Socket) returns (ret: nat, msgid: u16, msglen: u32)
    modifies sock`input, sock`plan, sock`end
    ensures var s := old(sock.View()); var h := TakeAll(s, HEADER_SIZE);
            && sock.View() == h.s
            && ret == (if h.ret != 0 then h.ret else if !HeaderOk(s.input) then EIO else 0)
            && (ret == 0 ==> msgid == HeaderId(s.input) && msglen == HeaderLen(s.input))
  {
    hide TakeAll;
    msgid, msglen := 0, 0;
    ghost var s := sock.View();
    var buf := new byte[HEADER_SIZE](_ => 0);
    ghost var past;
    ret, past := RecvAll(sock, buf, 0, HEADER_SIZE);
    if ret != 0 {
      return;
    }
    var hbuf := buf[..];
    assert hbuf == s.input[..HEADER_SIZE];
    assert hbuf[..2] == s.input[..2] && hbuf[2..4] == s.input[2..4] && hbuf[4..8] == s.input[4..8];
    if hbuf[..2] != MAGIC {
      return EIO, 0, 0;
    }
    msgid, msglen := Val16(hbuf[2..4]), Val32(hbuf[4..8]);
  }

  method RecvMsg(sock: Socket, msgid0: u16, buf: array<byte>, maxlen: u32)
      returns (ret: nat, msgid: u16, msglen: u32, ghost past: nat)
    requires maxlen <= buf.Length
    modifies sock`input, sock`plan, sock`end, buf
    ensures var m := TakeMsg(old(sock.View()), maxlen);
            && sock.View() == m.s && ret == m.ret && past == m.past
            && (msgid, msglen) == (if m.named.Some? then m.named.value else (msgid0, maxlen))
            && buf[..] == Blit(old(buf[..]), 0, m.stored)
  {
    hide TakeAll, TakeSkip, Blit, HeaderOk, HeaderId, HeaderLen;
    BlitNothing(buf[..], 0);
    msgid, msglen, past := msgid0, maxlen, 0;
    var mid, mlen;
    ret, mid, mlen := RecvHead(sock);
    if ret != 0 {
      return;
    }
    var rlen: u32 := if mlen > maxlen then maxlen else mlen;
    ret, past := RecvAll(sock, buf, 0, rlen);
    if ret != 0 {
      return;
    }
    if rlen < mlen {
      ret, past := RecvSkip(sock, mlen - rlen);
    }
    msgid, msglen := mid, rlen;
  }
}

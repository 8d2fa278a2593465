/** The receive side of a TCP session (PSC::recvdata) as a value: what is remembered
    between two data callbacks, one pass of the decoding loop, and the loop. */
module PscDecoder {
  import opened Framing
  import opened Chunks

  /** What recvdata changes outside the session: a receive block is named by its code. */
  datatype Block = Block(count: nat, data: seq<byte>)
  datatype Delivery = Delivery(id: u16, body: seq<byte>)
  datatype Sink = Sink(blocks: map<u16, Block>, ukncount: nat, log: seq<Delivery>)

  /** The decoder's fields. buf is the session's input buffer, failed says that a bad
      header made recvdata free the session, and with it the buffer. */
  datatype Decoder = Decoder(haveHead: bool, header: u16, bodylen: u32, bodyblock: Option<u16>,
                             expected: nat, buf: seq<byte>, failed: bool, sink: Sink)

  /** The fields as connect() sets them. */
  function Fresh(sink: Sink): Decoder { Decoder(false, 0, 0, None, HEADER_SIZE, [], false, sink) }

  predicate Inv(d: Decoder) {
    && d.expected == (if d.haveHead then d.bodylen as nat else HEADER_SIZE)
    && d.expected > 0
    && (!d.haveHead ==> d.bodyblock == None)
    && (d.bodyblock.Some? ==> d.bodyblock.value in d.sink.blocks)
    && (d.bodyblock.Some? ==> d.bodyblock.value == d.header)
    && (d.failed ==> d.buf == [])
  }

  /** A header with this id was decoded. */
  function OnHeader(s: Sink, id: u16): Sink {
    if id in s.blocks then
      s.(blocks := s.blocks[id := s.blocks[id].(count := s.blocks[id].count + 1)])
    else s.(ukncount := s.ukncount + 1)
  }

  /** A body was moved into a known block, which is then scanned and its listeners called. */
  function OnBody(s: Sink, id: u16, body: seq<byte>): Sink
    requires id in s.blocks
  {
    s.(blocks := s.blocks[id := s.blocks[id].(data := body)], log := s.log + [Delivery(id, body)])
  }

  function StepHeader(d: Decoder): (r: Decoder)
    requires Inv(d) && !d.failed && !d.haveHead && d.expected <= |d.buf|
    ensures Inv(r) && |r.buf| < |d.buf|
  {
    var hbuf, rest := d.buf[..HEADER_SIZE], d.buf[HEADER_SIZE..];
    if !HeaderOk(hbuf) then
      d.(buf := [], failed := true)
    else
      var id, n := HeaderId(hbuf), HeaderLen(hbuf);
      var d' := d.(header := id, bodylen := n, sink := OnHeader(d.sink, id), buf := rest);
      if n != 0 then
        d'.(haveHead := true, expected := n, bodyblock := if id in d.sink.blocks then Some(id) else None)
      else
        d'.(bodyblock := None)
  }

  function StepBody(d: Decoder): (r: Decoder)
    requires Inv(d) && !d.failed && d.haveHead && d.expected <= |d.buf|
    ensures Inv(r) && |r.buf| < |d.buf|
  {
    var body, rest := d.buf[..d.bodylen], d.buf[d.bodylen..];
    d.(haveHead := false, bodyblock := None, expected := HEADER_SIZE, buf := rest,
       sink := if d.bodyblock.Some? then OnBody(d.sink, d.bodyblock.value, body) else d.sink)
  }

  predicate Ready(d: Decoder) { !d.failed && d.expected <= |d.buf| }

  function Step(d: Decoder): (r: Decoder)
    requires Inv(d) && Ready(d)
    ensures Inv(r) && |r.buf| < |d.buf|
  {
    if d.haveHead then StepBody(d) else StepHeader(d)
  }

  /** The whole loop of one data callback. */
  function Drain(d: Decoder): (r: Decoder)
    requires Inv(d)
    ensures Inv(r) && !Ready(r)
    decreases |d.buf|
  {
    if Ready(d) then Drain(Step(d)) else d
  }

  lemma DrainStep(d: Decoder)
    requires Inv(d) && Ready(d)
    ensures Drain(d) == Drain(Step(d))
    ensures Step(d) == if d.haveHead then StepBody(d) else StepHeader(d)
  {
  }

  lemma DrainDone(d: Decoder)
    requires Inv(d) && !Ready(d)
    ensures Drain(d) == d
  {
  }

  lemma DrainBadHeader(d: Decoder)
    requires Inv(d) && Ready(d) && !d.haveHead && !HeaderOk(d.buf[..HEADER_SIZE])
    ensures Drain(d) == d.(buf := [], failed := true)
  {
    assert Drain(d) == Drain(Step(d));
  }

  /** Bytes arriving on the session; nothing arrives on a freed one. */
  function Arrive(d: Decoder, bytes: seq<byte>): Decoder {
    if d.failed then d else d.(buf := d.buf + bytes)
  }

  /** One data callback for each arrival. */
  function FeedAll(d: Decoder, chunks: seq<seq<byte>>): (r: Decoder)
    requires Inv(d)
    ensures Inv(r)
    decreases |chunks|
  {
    if chunks == [] then d else FeedAll(Drain(Arrive(d, chunks[0])), chunks[1..])
  }

  // ----- chunking independence -----

  lemma StepArrive(d: Decoder, x: seq<byte>)
    requires Inv(d) && Ready(d)
    ensures Step(Arrive(d, x)) == Arrive(Step(d), x)
  {
    var b, e := d.buf, d.expected;
    assert (b + x)[..e] == b[..e] && (b + x)[e..] == b[e..] + x;
  }

  /** Draining early does not change what draining later gives. */
  lemma {:induction false} DrainArrive(d: Decoder, x: seq<byte>)
    requires Inv(d)
    ensures Drain(Arrive(Drain(d), x)) == Drain(Arrive(d, x))
    decreases |d.buf|
  {
    if Ready(d) {
      StepArrive(d, x);
      DrainArrive(Step(d), x);
    }
  }

  lemma ArriveArrive(d: Decoder, x: seq<byte>, y: seq<byte>)
    ensures Arrive(Arrive(d, x), y) == Arrive(d, x + y)
  {
    assert d.buf + x + y == d.buf + (x + y);
  }

  /** However a stream is cut into arrivals, the decoder ends in the state, and has made
      the deliveries, of one callback on the whole stream. */
  lemma {:induction false} ChunkingIndependence(d: Decoder, chunks: seq<seq<byte>>)
    requires Inv(d)
    ensures Drain(FeedAll(d, chunks)) == Drain(Arrive(d, Flatten(chunks)))
    ensures !Ready(d) ==> FeedAll(d, chunks) == Drain(Arrive(d, Flatten(chunks)))
    decreases |chunks|
  {
    if chunks == [] {
      assert d.buf + [] == d.buf;
    } else {
      var x, rest := chunks[0], Flatten(chunks[1..]);
      ChunkingIndependence(Drain(Arrive(d, x)), chunks[1..]);
      DrainArrive(Arrive(d, x), rest);
      ArriveArrive(d, x, rest);
    }
  }

  // ----- the reference parser decides everything -----

  /** What one whole frame does to an idle decoder. */
  function Through(d: Decoder, f: Frame): Decoder {
    var s := OnHeader(d.sink, f.id);
    d.(header := f.id, bodylen := Low32(|f.body|),
       sink := if f.id in s.blocks && f.body != [] then OnBody(s, f.id, f.body) else s)
  }

  function ThroughAll(d: Decoder, fs: seq<Frame>): Decoder
    decreases |fs|
  {
    if fs == [] then d else ThroughAll(Through(d, fs[0]), fs[1..])
  }

  /** What the unfinished end of a stream does to an idle decoder. */
  function Unfinished(d: Decoder, tail: seq<byte>): Decoder {
    if |tail| < HEADER_SIZE then d.(buf := tail)
    else if !HeaderOk(tail) then d.(buf := [], failed := true)
    else
      var id := HeaderId(tail);
      d.(haveHead := true, header := id, bodylen := HeaderLen(tail), expected := HeaderLen(tail),
         bodyblock := if id in d.sink.blocks then Some(id) else None,
         buf := tail[HEADER_SIZE..], sink := OnHeader(d.sink, id))
  }

  predicate Idle(d: Decoder) {
    !d.failed && !d.haveHead && d.bodyblock == None && d.expected == HEADER_SIZE
  }

  lemma HeaderOfPrefix(b: seq<byte>)
    requires HEADER_SIZE <= |b|
    ensures var h := b[..HEADER_SIZE];
            HeaderOk(h) == HeaderOk(b) && HeaderId(h) == HeaderId(b) && HeaderLen(h) == HeaderLen(b)
  {
    var h := b[..HEADER_SIZE];
    assert h[..2] == b[..2] && h[2..4] == b[2..4] && h[4..8] == b[4..8];
  }

  /** Two passes of the loop (one when the body is empty) are one frame of the reference parser. */
  lemma DrainOneFrame(d: Decoder)
    requires Idle(d) && HEADER_SIZE <= |d.buf| && HeaderOk(d.buf)
    requires HEADER_SIZE + HeaderLen(d.buf) <= |d.buf|
    ensures var end := HEADER_SIZE + HeaderLen(d.buf);
            var f := Frame(HeaderId(d.buf), d.buf[HEADER_SIZE..end]);
            Drain(d) == Drain(Through(d, f).(buf := d.buf[end..]))
  {
    hide Drain, HeaderOk, HeaderId, HeaderLen;
    HeaderOfPrefix(d.buf);
    var d1, n := Step(d), HeaderLen(d.buf);
    DrainStep(d);
    if n != 0 {
      assert d1.buf[..n] == d.buf[HEADER_SIZE..HEADER_SIZE + n];
      assert d1.buf[n..] == d.buf[HEADER_SIZE + n..];
      DrainStep(d1);
    } else {
      assert d.buf[HEADER_SIZE..HEADER_SIZE] == [];
    }
  }

  /** The loop is the reference parser: every whole frame goes through in order, then
      the unfinished tail, or the bad header, decides the rest of the state. */
  lemma {:induction false} DrainIsParse(d: Decoder)
    requires Idle(d)
    ensures var p := Parse(d.buf);
            Drain(d) == Unfinished(ThroughAll(d.(buf := []), p.frames), p.tail)
    decreases |d.buf|
  {
    var b := d.buf;
    if HEADER_SIZE <= |b| {
      HeaderOfPrefix(b);
      if HeaderOk(b) {
        var end := HEADER_SIZE + HeaderLen(b);
        if end <= |b| {
          var f := Frame(HeaderId(b), b[HEADER_SIZE..end]);
          DrainOneFrame(d);
          DrainIsParse(Through(d, f).(buf := b[end..]));
          assert Parse(b).frames == [f] + Parse(b[end..]).frames;
          assert Through(d, f).(buf := []) == Through(d.(buf := []), f);
        } else {
          var d1 := Step(d);
          assert Drain(d) == Drain(d1) == d1;
        }
      }
    }
  }

  // ----- what a stream delivers -----

  /** The deliveries a list of frames makes: known ids, bodies that are not empty. */
  function Delivered(known: set<u16>, fs: seq<Frame>): seq<Delivery> {
    if fs == [] then []
    else if fs[0].id in known && fs[0].body != [] then
      [Delivery(fs[0].id, fs[0].body)] + Delivered(known, fs[1..])
    else Delivered(known, fs[1..])
  }

  function CountId(id: u16, fs: seq<Frame>): nat {
    if fs == [] then 0 else (if fs[0].id == id then 1 else 0) + CountId(id, fs[1..])
  }

  function CountUnknown(known: set<u16>, fs: seq<Frame>): nat {
    if fs == [] then 0 else (if fs[0].id in known then 0 else 1) + CountUnknown(known, fs[1..])
  }

  /** The body a block holds after the frames: the last one sent to it that was not empty. */
  function LastBody(id: u16, fs: seq<Frame>, before: seq<byte>): seq<byte>
    decreases |fs|
  {
    if fs == [] then before
    else LastBody(id, fs[1..], if fs[0].id == id && fs[0].body != [] then fs[0].body else before)
  }

  /** The effect of whole frames on one block: it counted its own frames, empty ones too,
      and holds its own last body that was not empty. */
  lemma {:induction false} ThroughAllBlock(d: Decoder, fs: seq<Frame>, id: u16)
    requires id in d.sink.blocks
    ensures var s, s' := d.sink, ThroughAll(d, fs).sink;
            id in s'.blocks &&
            s'.blocks[id] == Block(s.blocks[id].count + CountId(id, fs), LastBody(id, fs, s.blocks[id].data))
    decreases |fs|
  {
    if fs != [] { ThroughAllBlock(Through(d, fs[0]), fs[1..], id); }
  }

  /** The effect of whole frames on the rest: no block appears or goes, unknown ids are
      counted, and the log grows by the deliveries. */
  lemma {:induction false} ThroughAllLog(d: Decoder, fs: seq<Frame>)
    ensures var s, s', known := d.sink, ThroughAll(d, fs).sink, d.sink.blocks.Keys;
            && s'.blocks.Keys == known
            && s'.log == s.log + Delivered(known, fs)
            && s'.ukncount == s.ukncount + CountUnknown(known, fs)
    decreases |fs|
  {
    if fs != [] {
      var d1 := Through(d, fs[0]);
      assert d1.sink.blocks.Keys == d.sink.blocks.Keys;
      ThroughAllLog(d1, fs[1..]);
      assert d.sink.log + Delivered(d.sink.blocks.Keys, fs) == d1.sink.log + Delivered(d.sink.blocks.Keys, fs[1..]);
    }
  }

  lemma {:induction false} ThroughAllIdle(d: Decoder, fs: seq<Frame>)
    requires Idle(d)
    ensures var r := ThroughAll(d, fs); Idle(r) && r.buf == d.buf
    decreases |fs|
  {
    if fs != [] { ThroughAllIdle(Through(d, fs[0]), fs[1..]); }
  }

  /** Codec round trip: frames encoded by the sender, cut anywhere on the way, reach the
      receiver's blocks as the same ids and bodies in the same order, and leave nothing over. */
  lemma RoundTrip(sink: Sink, fs: seq<Frame>, chunks: seq<seq<byte>>)
    requires forall f :: f in fs ==> Fits(f)
    requires Flatten(chunks) == EncodeAll(fs)
    ensures var r := FeedAll(Fresh(sink), chunks);
            && Idle(r) && r.buf == []
            && r == ThroughAll(Fresh(sink), fs)
            && r.sink.log == sink.log + Delivered(sink.blocks.Keys, fs)
  {
    var d := Fresh(sink);
    ChunkingIndependence(d, chunks);
    assert d.buf + Flatten(chunks) == Flatten(chunks);
    DrainIsParse(d.(buf := Flatten(chunks)));
    ParseEncodedExactly(fs);
    ThroughAllIdle(d, fs);
    ThroughAllLog(d, fs);
  }
}

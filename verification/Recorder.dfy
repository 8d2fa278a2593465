/** Recording: the cache worker appends one record for each packet of a batch to the data
    file, in writev() calls of at most iovLimit pieces. */
module Recorder {
  import opened Framing
  import opened Chunks
  import U = UdpFastModel

  const POSIX_TIME_AT_EPICS_EPOCH: u32 := 631152000
  const RECORD_HEADER := 16

  // ----- the file format -----

  /** A 32-bit addition, as the source does it. */
  function PosixSec(sec: u32): u32 { (sec + POSIX_TIME_AT_EPICS_EPOCH) % 0x1_0000_0000 }
  function EpicsSec(sec: u32): u32 { (sec - POSIX_TIME_AT_EPICS_EPOCH) % 0x1_0000_0000 }

  datatype Entry = Entry(msgid: u16, rxtime: U.Time, body: seq<byte>)

  /** The packet's length is within its buffer. */
  predicate Sized(p: U.Pkt) { p.body.Buf? && p.bodylen <= |p.body.data| }

  function EntryOf(p: U.Pkt): Entry
    requires Sized(p)
  {
    Entry(p.msgid, p.rxtime, p.body.data[..p.bodylen])
  }

  function RecordHeader(p: U.Pkt): (r: seq<byte>)
    ensures |r| == RECORD_HEADER
  {
    Header(p.msgid, p.bodylen) + (BE32(PosixSec(p.rxtime.sec)) + BE32(p.rxtime.nsec))
  }

  function Record(p: U.Pkt): seq<byte>
    requires Sized(p)
  {
    RecordHeader(p) + p.body.data[..p.bodylen]
  }

  predicate AllSized(ps: seq<U.Pkt>) { forall i :: 0 <= i < |ps| ==> Sized(ps[i]) }

  function RecordAll(ps: seq<U.Pkt>): seq<byte>
    requires AllSized(ps)
  {
    if ps == [] then [] else Record(ps[0]) + RecordAll(ps[1..])
  }

  function Entries(ps: seq<U.Pkt>): seq<Entry>
    requires AllSized(ps)
  {
    seq(|ps|, i requires 0 <= i < |ps| => EntryOf(ps[i]))
  }

  /** A reader of the format as it is written: whole entries in front, and what is left. */
  function ReadFile(b: seq<byte>): (seq<Entry>, seq<byte>)
    decreases |b|
  {
    if |b| < RECORD_HEADER || !HeaderOk(b) || |b| < RECORD_HEADER + HeaderLen(b) then ([], b)
    else
      var end := RECORD_HEADER + HeaderLen(b);
      var e := Entry(HeaderId(b), U.Time(EpicsSec(Val32(b[8..12])), Val32(b[12..16])), b[RECORD_HEADER..end]);
      var (es, rest) := ReadFile(b[end..]);
      ([e] + es, rest)
  }

  /** The record's fields, in the documented order and sizes; the seconds are POSIX seconds. */
  lemma RecordLayout(p: U.Pkt)
    requires Sized(p)
    ensures var r := Record(p);
            && |r| == 16 + p.bodylen && r[..2] == MAGIC
            && Val16(r[2..4]) == p.msgid && Val32(r[4..8]) == p.bodylen
            && Val32(r[8..12]) == (p.rxtime.sec + 631152000) % 0x1_0000_0000
            && Val32(r[12..16]) == p.rxtime.nsec && r[16..] == p.body.data[..p.bodylen]
  {
    var r := Record(p);
    assert r[..2] == MAGIC && r[2..4] == BE16(p.msgid) && r[4..8] == BE32(p.bodylen);
    assert r[8..12] == BE32(PosixSec(p.rxtime.sec)) && r[12..16] == BE32(p.rxtime.nsec);
    Big16Inverse(p.msgid, r[2..4]);
    Big32Inverse(p.bodylen, r[4..8]);
    Big32Inverse(PosixSec(p.rxtime.sec), r[8..12]);
    Big32Inverse(p.rxtime.nsec, r[12..16]);
  }

  /** The documentation labels the fields with the offsets 0, 4, C, 10 and 14 (hex). The first two
      are right. At C are the nanoseconds and at 10 the body, so what the labels promise there is
      found only by coincidence, and from 14 on four bytes of the body are missing. */
  lemma OffsetLabels(p: U.Pkt)
    requires Sized(p)
    ensures var r, sec, body := Record(p), PosixSec(p.rxtime.sec), p.body.data[..p.bodylen];
            && r[..2] == MAGIC && Val16(r[2..4]) == p.msgid && Val32(r[4..8]) == p.bodylen
            && (Val32(r[0xC..0x10]) == sec <==> p.rxtime.nsec == sec)
            && (p.bodylen >= 4 ==>
                  && (Val32(r[0x10..0x14]) == p.rxtime.nsec <==> body[..4] == BE32(p.rxtime.nsec))
                  && r[0x14..] == body[4..] && r[0x14..] != body)
  {
    RecordLayout(p);
    var r := Record(p);
    if p.bodylen >= 4 {
      assert r[0x10..0x14] == r[16..][..4] && r[0x14..] == r[16..][4..];
      Big32Inverse(p.rxtime.nsec, r[0x10..0x14]);
      assert |r[0x14..]| == p.bodylen - 4;
    }
  }

  /** The receive worker accepts a packet whose body came short of the length it declares, so
      the writer's need is met exactly for those that declare no more than a buffer holds. */
  lemma AcceptedIsSizedIff(v: U.Vec, d: U.Datagram, now: U.Time)
    requires v.Buf? && U.Accepts(v, d)
    ensures Sized(U.Accepted(v, d, now)) <==> HeaderLen(d.bytes) <= |v.data|
    ensures |v.data| < 0x1_0000_0000 - 1 ==>
              var long := U.Datagram(true, Header(0, 0x1_0000_0000 - 1));
              U.Accepts(v, long) && !Sized(U.Accepted(v, long, now))
  {
    HeaderInverse(0, 0x1_0000_0000 - 1, []);
    assert Header(0, 0x1_0000_0000 - 1) + [] == Header(0, 0x1_0000_0000 - 1);
  }

  lemma {:induction false} RecordAllAppend(a: seq<U.Pkt>, b: seq<U.Pkt>)
    requires AllSized(a) && AllSized(b)
    ensures RecordAll(a + b) == RecordAll(a) + RecordAll(b)
  {
    hide Record;
    if a == [] {
      assert a + b == b;
    } else {
      RecordAllAppend(a[1..], b);
      assert (a + b)[1..] == a[1..] + b;
    }
  }

  lemma ReadOneRecord(p: U.Pkt, rest: seq<byte>)
    requires Sized(p)
    ensures var (es, left) := ReadFile(rest); ReadFile(Record(p) + rest) == ([EntryOf(p)] + es, left)
  {
    hide Header, BE32, Val32;
    var body := p.body.data[..p.bodylen];
    var b, sec, nsec := Record(p) + rest, BE32(PosixSec(p.rxtime.sec)), BE32(p.rxtime.nsec);
    assert b == Header(p.msgid, p.bodylen) + (sec + nsec + body + rest);
    HeaderInverse(p.msgid, p.bodylen, sec + nsec + body + rest);
    assert b[8..12] == sec && b[12..16] == nsec;
    Big32Inverse(PosixSec(p.rxtime.sec), sec);
    Big32Inverse(p.rxtime.nsec, nsec);
    assert EpicsSec(PosixSec(p.rxtime.sec)) == p.rxtime.sec;
    var end := RECORD_HEADER + |body|;
    assert b[RECORD_HEADER..end] == body && b[end..] == rest;
  }

  /** Whole records, then anything: the packets' ids, times and exactly bodylen bytes each, then
      what the rest reads as. */
  lemma {:induction false} RecordsReadBack(ps: seq<U.Pkt>, rest: seq<byte>)
    requires AllSized(ps)
    ensures var (es, left) := ReadFile(rest); ReadFile(RecordAll(ps) + rest) == (Entries(ps) + es, left)
  {
    hide Record, ReadFile;
    if ps == [] {
      assert RecordAll(ps) + rest == rest;
      assert Entries(ps) + ReadFile(rest).0 == ReadFile(rest).0;
    } else {
      RecordsReadBack(ps[1..], rest);
      ReadOneRecord(ps[0], RecordAll(ps[1..]) + rest);
      assert RecordAll(ps) + rest == Record(ps[0]) + (RecordAll(ps[1..]) + rest);
      var es := ReadFile(rest).0;
      assert [EntryOf(ps[0])] + (Entries(ps[1..]) + es) == Entries(ps) + es;
    }
  }

  lemma FileReadsBack(ps: seq<U.Pkt>)
    requires AllSized(ps)
    ensures ReadFile(RecordAll(ps)) == (Entries(ps), [])
  {
    hide RecordAll, ReadFile;
    RecordsReadBack(ps, []);
    NothingToRead();
    assert RecordAll(ps) + [] == RecordAll(ps) && Entries(ps) + [] == Entries(ps);
  }

  lemma NothingToRead()
    ensures ReadFile([]) == ([], [])
  {
  }

  lemma PartOfRecord(p: U.Pkt, b: seq<byte>)
    requires Sized(p) && b <= Record(p) && b != Record(p)
    ensures ReadFile(b) == ([], b)
  {
    hide Header, BE32, Val32;
    var r := Record(p);
    assert r == Header(p.msgid, p.bodylen) + r[HEADER_SIZE..];
    HeaderInverse(p.msgid, p.bodylen, r[HEADER_SIZE..]);
    assert |b| >= HEADER_SIZE ==> b[..2] == r[..2] && b[4..8] == r[4..8];
  }

  /** What a file that ends early reads as: n whole records, those that are all there, and the
      beginning of the next one. */
  ghost predicate ReadsUpTo(b: seq<byte>, ps: seq<U.Pkt>, n: nat)
    requires AllSized(ps) && n <= |ps|
  {
    var (es, left) := ReadFile(b);
    && es == Entries(ps)[..n] && b == RecordAll(ps[..n]) + left
    && (n < |ps| ==> left <= Record(ps[n]) && left != Record(ps[n])) && (n == |ps| ==> left == [])
  }

  /** A file cut anywhere loses the record it is cut in and those behind it, and nothing else. */
  lemma {:induction false} CutFileReadsBack(ps: seq<U.Pkt>, b: seq<byte>) returns (n: nat)
    requires AllSized(ps) && b <= RecordAll(ps)
    ensures n <= |ps| && ReadsUpTo(b, ps, n)
  {
    hide Record, ReadFile;
    n := 0;
    NothingRecorded(ps);
    if ps == [] {
      FileReadsBack([]);
    } else if |b| < |Record(ps[0])| {
      assert b <= Record(ps[0]);
      PartOfRecord(ps[0], b);
    } else {
      var r, b' := Record(ps[0]), b[|Record(ps[0])|..];
      assert b == r + b';
      var m := CutFileReadsBack(ps[1..], b');
      n := m + 1;
      ReadOneRecord(ps[0], b');
      OneMore(ps, m);
    }
  }

  lemma OneMore(ps: seq<U.Pkt>, m: nat)
    requires AllSized(ps) && ps != [] && m <= |ps| - 1
    ensures Entries(ps)[..m + 1] == [EntryOf(ps[0])] + Entries(ps[1..])[..m]
    ensures RecordAll(ps[..m + 1]) == Record(ps[0]) + RecordAll(ps[1..][..m])
  {
    hide Record;
    assert ps[..m + 1][1..] == ps[1..][..m];
  }

  lemma NothingCut(b: seq<byte>, ps: seq<U.Pkt>, n: nat)
    requires AllSized(ps) && n <= |ps| && ReadsUpTo(b, ps, n) && ReadFile(b) == (Entries(ps), [])
    ensures b == RecordAll(ps)
  {
    hide RecordAll, ReadFile;
    assert |Entries(ps)[..n]| == |ps|;
    assert ps[..n] == ps;
    assert RecordAll(ps) + [] == RecordAll(ps);
  }

  /** What writing a batch does to a file: it grows by a part of the records from their front
      on, and by all of them exactly if the file is still open then. */
  ghost predicate Grew(before: seq<byte>, after: seq<byte>, ps: seq<U.Pkt>, open: bool)
    requires AllSized(ps)
  {
    && before <= after <= before + RecordAll(ps)
    && (open <==> after == before + RecordAll(ps))
  }

  ghost predicate AllBatchesSized(batches: seq<seq<U.Pkt>>) { forall i :: 0 <= i < |batches| ==> AllSized(batches[i]) }

  /** A file from its opening on, before and after each batch; only the last may close it. */
  ghost predicate Recorded(files: seq<seq<byte>>, batches: seq<seq<U.Pkt>>, open: bool)
    requires AllBatchesSized(batches)
  {
    && |files| == |batches| + 1 && files[0] == []
    && forall i :: 0 <= i < |batches| ==> Grew(files[i], files[i + 1], batches[i], open || i < |batches| - 1)
  }

  lemma FlattenSized(batches: seq<seq<U.Pkt>>, ps: seq<U.Pkt>)
    requires AllSized(Flatten(batches)) && AllSized(ps)
    ensures AllSized(Flatten(batches + [ps]))
    ensures RecordAll(Flatten(batches + [ps])) == RecordAll(Flatten(batches)) + RecordAll(ps)
  {
    FlattenSnoc(batches, ps);
    RecordAllAppend(Flatten(batches), ps);
  }

  lemma {:induction false} BatchesAreInvisible(files: seq<seq<byte>>, batches: seq<seq<U.Pkt>>, open: bool)
    requires AllBatchesSized(batches) && Recorded(files, batches, open)
    requires batches != [] || open
    ensures AllSized(Flatten(batches)) && Grew([], files[|batches|], Flatten(batches), open)
    decreases |batches|
  {
    hide RecordAll;
    if batches == [] {
      assert RecordAll([]) == [] by { NothingRecorded([]); }
    } else {
      var n := |batches| - 1;
      BatchesAreInvisible(files[..n + 1], batches[..n], true);
      FlattenSized(batches[..n], batches[n]);
      assert batches == batches[..n] + [batches[n]];
      assert Grew(files[n], files[n + 1], batches[n], open);
      assert [] + RecordAll(Flatten(batches[..n])) == files[n];
      assert [] + RecordAll(Flatten(batches)) == files[n] + RecordAll(batches[n]);
    }
  }

  /** A file written batch by batch reads back as its packets in order: all of them exactly if
      it is still open, else those before the one that a failed or short writev() cut. */
  lemma RecordingReadsBack(files: seq<seq<byte>>, batches: seq<seq<U.Pkt>>, open: bool) returns (n: nat)
    requires AllBatchesSized(batches) && Recorded(files, batches, open) && (batches != [] || open)
    ensures var ps := Flatten(batches);
            && AllSized(ps) && n <= |ps| && ReadsUpTo(files[|batches|], ps, n)
            && (open <==> ReadFile(files[|batches|]) == (Entries(ps), []))
  {
    hide RecordAll, ReadFile;
    BatchesAreInvisible(files, batches, open);
    var ps, b := Flatten(batches), files[|batches|];
    assert [] + RecordAll(ps) == RecordAll(ps);
    n := CutFileReadsBack(ps, b);
    FileReadsBack(ps);
    if ReadFile(b) == (Entries(ps), []) { NothingCut(b, ps, n); }
  }

  lemma {:induction false} RecordAllPositive(ps: seq<U.Pkt>)
    requires AllSized(ps) && ps != []
    ensures |RecordAll(ps)| >= RECORD_HEADER
  {
    hide RecordHeader;
  }

  // ----- writing -----

  /** How one writev() goes: in full, short by at least a byte, or not at all. */
  datatype Written = Complete | Short(missing: nat) | Error

  predicate Whole(w: Written) { w.Complete? || w == Short(0) }

  /** Every writev() that comes about as long as all go well does; h packets go into one. */
  predicate AllWhole(results: seq<Written>, n: nat, h: nat) {
    forall c :: 0 <= c < |results| && c * h < n ==> Whole(results[c])
  }

  lemma EarlierCall(c: nat, k: nat, h: nat)
    requires c <= k
    ensures c * h <= k * h
  {
    assert k * h == c * h + (k - c) * h;
  }

  /** After k calls that reached packet i: all have gone well, or the last one has not. */
  lemma OutcomeOfCalls(results: seq<Written>, n: nat, h: nat, k: nat, open: bool)
    requires open ==> n <= k * h && forall c :: 0 <= c < k && c < |results| ==> Whole(results[c])
    requires !open ==> 0 < k <= |results| && (k - 1) * h < n && !Whole(results[k - 1])
    ensures open <==> AllWhole(results, n, h)
  {
    if open {
      forall c | 0 <= c < |results| && c * h < n ensures Whole(results[c]) {
        if k <= c { EarlierCall(k, c, h); }
      }
    }
  }

  class DataFile {
    var isOpen: bool
    var record: bool
    var bytes: seq<byte>
    var storewrote: nat

    constructor ()
      ensures isOpen && record && bytes == [] && storewrote == 0
    {
      isOpen, record, bytes, storewrote := true, true, [], 0;
    }

    /** writev(): appends the pieces in order, or a part of them; returns how much, or -1. */
    method Writev(pieces: seq<seq<byte>>, how: Written) returns (ret: int)
      modifies this`bytes
      ensures old(bytes) <= bytes <= old(bytes) + Flatten(pieces)
      ensures ret == -1 ==> bytes == old(bytes) && how.Error?
      ensures ret != -1 ==> ret == |bytes| - |old(bytes)|
      ensures ret == |Flatten(pieces)| ==> bytes == old(bytes) + Flatten(pieces)
      ensures Flatten(pieces) != [] ==> (ret == |Flatten(pieces)| <==> Whole(how))
    {
      if how.Error? {
        return -1;
      }
      var all := Flatten(pieces);
      var n := if how.Complete? then |all| else if how.missing <= |all| then |all| - how.missing else 0;
      bytes := bytes + all[..n];
      assert all[..|all|] == all;
      ret := n;
    }

    /** The inner loop: header and body of up to |headers| packets, from i on. */
    method FillIovecs(inprog: seq<U.Pkt>, i: nat, headers: nat)
        returns (b: nat, ios: seq<seq<byte>>, batchtotal: nat)
      requires AllSized(inprog) && i <= |inprog|
      ensures b == if |inprog| - i < headers then |inprog| - i else headers
      ensures |ios| == 2 * b
      ensures Flatten(ios) == RecordAll(inprog[i..i + b]) && batchtotal == |Flatten(ios)|
    {
      hide RecordAll, Flatten, RecordHeader;
      b, ios, batchtotal := 0, [], 0;
      assert inprog[i..i] == inprog[..0];
      NothingRecorded(inprog);
      FlattenAtMostOne<byte>([]);
      while i + b < |inprog| && b < headers
        invariant i + b <= |inprog| && b <= headers
        invariant |ios| == 2 * b
        invariant Flatten(ios) == RecordAll(inprog[i..i + b]) && batchtotal == |Flatten(ios)|
      {
        var pkt := inprog[i + b];
        AddRecord(inprog, i, b, ios);
        var body := pkt.body.data[..pkt.bodylen];
        ios := ios + [RecordHeader(pkt)] + [body];
        batchtotal := batchtotal + RECORD_HEADER + pkt.bodylen;
        b := b + 1;
      }
    }

    /** Writes one batch. results tells how each writev() goes; all after them are complete. */
    method WriteBatch(inprog: seq<U.Pkt>, iovLimit: nat, results: seq<Written>) returns (calls: seq<nat>)
      requires iovLimit >= 2 && AllSized(inprog) && isOpen
      modifies this
      ensures Grew(old(bytes), bytes, inprog, isOpen)
      ensures record == (old(record) && isOpen)
      ensures isOpen <==> AllWhole(results, |inprog|, iovLimit / 2)
      ensures storewrote - old(storewrote) >= |bytes| - |old(bytes)|
      ensures storewrote - old(storewrote) == |bytes| - |old(bytes)| <==> isOpen
      ensures forall c :: 0 <= c < |calls| ==> 0 < calls[c] <= iovLimit
    {
      hide RecordAll;
      var i, datatotal := 0, 0;
      calls := [];
      ghost var was := bytes;
      ghost var reach := 0;
      NothingRecorded(inprog);
      while i < |inprog| && isOpen
        invariant i <= |inprog|
        invariant isOpen ==> bytes == was + RecordAll(inprog[..i]) && datatotal == |bytes| - |was|
        invariant !isOpen ==> was <= bytes <= was + RecordAll(inprog) && bytes != was + RecordAll(inprog)
        invariant !isOpen ==> datatotal > |bytes| - |was|
        invariant record == (old(record) && isOpen)
        invariant storewrote == old(storewrote)
        invariant reach == |calls| * (iovLimit / 2) && (isOpen ==> i == if reach < |inprog| then reach else |inprog|)
        invariant isOpen ==> forall c :: 0 <= c < |calls| && c < |results| ==> Whole(results[c])
        invariant !isOpen ==>
          0 < |calls| <= |results| && reach - iovLimit / 2 < |inprog| && !Whole(results[|calls| - 1])
        invariant forall c :: 0 <= c < |calls| ==> 0 < calls[c] <= iovLimit
        decreases |inprog| - i
      {
        var b, ios, batchtotal := FillIovecs(inprog, i, iovLimit / 2);
        var how := if |calls| < |results| then results[|calls|] else Complete;
        ghost var before := bytes;
        BatchInAll(inprog, i, b);
        var ret := Writev(ios, how);
        StillPrefix(before, bytes, was, RecordAll(inprog[..i]), Flatten(ios), RecordAll(inprog[i + b..]));
        if ret < 0 {
          isOpen, record := false, false;
        } else if ret != batchtotal {
          isOpen, record := false, false;
        }
        assert (|calls| + 1) * (iovLimit / 2) == reach + iovLimit / 2;
        calls, reach := calls + [2 * b], reach + iovLimit / 2;
        i, datatotal := i + b, datatotal + batchtotal;
      }
      assert inprog[..|inprog|] == inprog;
      assert (|calls| - 1) * (iovLimit / 2) == reach - iovLimit / 2;
      OutcomeOfCalls(results, |inprog|, iovLimit / 2, |calls|, isOpen);
      storewrote := storewrote + datatotal;
    }
  }

  lemma NothingRecorded(inprog: seq<U.Pkt>)
    requires AllSized(inprog)
    ensures RecordAll(inprog[..0]) == []
  {
  }

  /** The batch lies between what was written before and what follows, and is not empty. */
  lemma BatchInAll(ps: seq<U.Pkt>, i: nat, b: nat)
    requires AllSized(ps) && i + b <= |ps| && b > 0
    ensures RecordAll(ps[..i + b]) == RecordAll(ps[..i]) + RecordAll(ps[i..i + b])
    ensures RecordAll(ps) == RecordAll(ps[..i]) + RecordAll(ps[i..i + b]) + RecordAll(ps[i + b..])
    ensures |RecordAll(ps[i..i + b])| >= RECORD_HEADER
  {
    hide RecordAll;
    RecordAllAppend(ps[..i], ps[i..i + b]);
    assert ps[..i] + ps[i..i + b] == ps[..i + b];
    RecordAllAppend(ps[..i + b], ps[i + b..]);
    assert ps[..i + b] + ps[i + b..] == ps;
    RecordAllPositive(ps[i..i + b]);
  }

  lemma StillPrefix(before: seq<byte>, after: seq<byte>, was: seq<byte>,
                    done: seq<byte>, batch: seq<byte>, rest: seq<byte>)
    requires before == was + done && before <= after <= before + batch
    ensures was <= after <= was + (done + batch + rest)
    ensures |after| < |before + batch| ==> after != was + (done + batch + rest)
    ensures after == before + batch ==> after == was + (done + batch)
  {
    assert before + batch + rest == was + (done + batch + rest);
    assert after <= before + batch + rest;
  }

  lemma RecordOne(p: U.Pkt)
    requires Sized(p)
    ensures RecordAll([p]) == RecordHeader(p) + p.body.data[..p.bodylen]
  {
    assert RecordAll([p]) == Record(p) + [] == Record(p);
  }

  lemma AddRecord(inprog: seq<U.Pkt>, i: nat, b: nat, ios: seq<seq<byte>>)
    requires AllSized(inprog) && i + b < |inprog| && Flatten(ios) == RecordAll(inprog[i..i + b])
    ensures var p := inprog[i + b];
            Flatten(ios + [RecordHeader(p)] + [p.body.data[..p.bodylen]]) == RecordAll(inprog[i..i + b + 1])
    ensures |Flatten(ios + [RecordHeader(inprog[i + b])] + [inprog[i + b].body.data[..inprog[i + b].bodylen]])| ==
            |Flatten(ios)| + RECORD_HEADER + inprog[i + b].bodylen
  {
    hide RecordHeader, Record, RecordAll, Flatten;
    var p := inprog[i + b];
    var body := p.body.data[..p.bodylen];
    FlattenSnoc(ios, RecordHeader(p));
    FlattenSnoc(ios + [RecordHeader(p)], body);
    RecordAllAppend(inprog[i..i + b], [p]);
    assert inprog[i..i + b + 1] == inprog[i..i + b] + [p];
    RecordOne(p);
    assert Flatten(ios) + RecordHeader(p) + body == Flatten(ios) + (RecordHeader(p) + body);
  }
}

/** devPSCReg: 32-bit registers inside a block's data, and read-modify-write under a mask. */
module Register {
  import opened Chunks
  import opened DBuffers
  import opened HostOrder

  type Bytes = seq<bv8>
  const REG := 4

  /** An epicsUInt32 in the memory of the host, lowest byte first, and back. */
  function Memory(v: bv32): (r: Bytes)
    ensures |r| == REG
  {
    [(v & 0xFF) as bv8, ((v >> 8) & 0xFF) as bv8, ((v >> 16) & 0xFF) as bv8, ((v >> 24) & 0xFF) as bv8]
  }

  function FromMemory(m: Bytes): bv32
    requires |m| == REG
  {
    ((m[3] as bv32) << 24) | ((m[2] as bv32) << 16) | ((m[1] as bv32) << 8) | (m[0] as bv32)
  }

  /** A register in a block: hton and ntoh reverse its memory (HostOrder.HtonReverses). */
  function OnWire(v: bv32): (r: Bytes)
    ensures |r| == REG
  {
    Reverse(Memory(v))
  }

  function Word(b: Bytes): bv32
    requires |b| == REG
  {
    FromMemory(Reverse(b))
  }

  lemma BackFromMemory(v: bv32)
    ensures FromMemory(Memory(v)) == v
  {
  }

  lemma BackToMemory(m: Bytes)
    requires |m| == REG
    ensures Memory(FromMemory(m)) == m
  {
    var v := FromMemory(m);
    assert Memory(v)[0] == m[0];
    assert Memory(v)[1] == m[1];
    assert Memory(v)[2] == m[2];
    assert Memory(v)[3] == m[3];
  }

  /** Highest byte first; and the bytes and the word determine each other. */
  lemma WordsOnWire(v: bv32, b: Bytes)
    requires |b| == REG
    ensures OnWire(v) ==
            [((v >> 24) & 0xFF) as bv8, ((v >> 16) & 0xFF) as bv8, ((v >> 8) & 0xFF) as bv8, (v & 0xFF) as bv8]
    ensures Word(OnWire(v)) == v && OnWire(Word(b)) == b
  {
    assert Memory(v) ==
           [(v & 0xFF) as bv8, ((v >> 8) & 0xFF) as bv8, ((v >> 16) & 0xFF) as bv8, ((v >> 24) & 0xFF) as bv8];
    hide Memory, FromMemory;
    ReverseTwice(Memory(v));
    ReverseTwice(b);
    BackFromMemory(v);
    BackToMemory(Reverse(b));
  }

  // ----- fields of any size -----

  predicate InBlock(v: Bytes, offset: nat, size: nat) { offset + size <= |v| }

  datatype Written = Written(data: Bytes, ok: bool)

  /** write_from_field on a block's bytes: x is copied in as far as it fits. */
  function WriteBytes(v: Bytes, offset: nat, x: Bytes): Written {
    if InBlock(v, offset, |x|) then Written(Blit(v, offset, x), true)
    else if offset >= |v| then Written(v, false)
    else Written(Blit(v, offset, x[..|v| - offset]), false)
  }

  /** A write that fits replaces the field's bytes; one that begins inside replaces those up to
      the end; no write touches another byte. */
  lemma FieldIsWritten(v: Bytes, offset: nat, x: Bytes)
    ensures var w, end := WriteBytes(v, offset, x), offset + |x|;
            && (w.ok <==> end <= |v|) && |w.data| == |v|
            && (end <= |v| ==> w.data[offset..end] == x && w.data[..offset] == v[..offset] && w.data[end..] == v[end..])
            && (offset < |v| < end ==> w.data[offset..] == x[..|v| - offset] && w.data[..offset] == v[..offset])
            && (offset >= |v| && x != [] ==> w.data == v)
  {
    hide Blit;
    if offset + |x| <= |v| {
      BlitElsewhere(v, offset, x);
      BlitSlices(v, offset, x, 0, 0);
    } else if offset < |v| {
      BlitElsewhere(v, offset, x[..|v| - offset]);
      BlitSlices(v, offset, x[..|v| - offset], 0, 0);
      var d := WriteBytes(v, offset, x).data;
      assert d[offset..] == d[offset..|v|];
    }
  }

  /** read_to_field, for a T of any size: what *pfield then has in memory. */
  method ReadToField(data: DBuffer<bv8>, offset: nat, size: nat) returns (ok: bool, field: Bytes)
    requires data.Valid() && size > 0
    ensures ok <==> offset + size <= |data.View()|
    ensures ok ==> field == Reverse(data.View()[offset..offset + size])
  {
    field := [];
    if offset > data.Size() {
      return false, [];
    }
    var raw := new bv8[size](_ => 0);
    ok := data.CopyOut(raw, offset, size);
    if ok {
      BlitFront(seq(size, _ => 0), data.View()[offset..offset + size]);
      assert raw[..] == data.View()[offset..offset + size];
      field := Reverse(raw[..]);
    }
  }

  /** write_from_field, for a T of any size: field is what *pfield has in memory. */
  method WriteFromField(data: DBuffer<bv8>, offset: nat, field: Bytes) returns (ok: bool)
    requires data.Valid() && field != []
    modifies data
    ensures data.Valid() && Written(data.View(), ok) == WriteBytes(old(data.View()), offset, Reverse(field))
  {
    hide Reverse;
    if offset > data.Size() {
      return false;
    }
    ghost var v := data.View();
    var temp := Reverse(field);
    ok := data.CopyIn(temp, offset);
    assert temp[..|temp|] == temp;
    if offset == |v| { BlitNothing(v, offset); assert temp[..0] == []; }
  }

  // ----- registers under a mask -----

  function RegAt(v: Bytes, offset: nat): bv32
    requires InBlock(v, offset, REG)
  {
    Word(v[offset..offset + REG])
  }

  function Merge(was: bv32, rval: bv32, mask: bv32): bv32 {
    if mask != 0 then (was & !mask) | (rval & mask) else rval
  }

  /** write_binary on a block's bytes. A masked write that does not fit fails on its read. */
  function WriteReg(v: Bytes, offset: nat, rval: bv32, mask: bv32): Written {
    if mask == 0 then WriteBytes(v, offset, OnWire(rval))
    else if !InBlock(v, offset, REG) then Written(v, false)
    else WriteBytes(v, offset, OnWire(Merge(RegAt(v, offset), rval, mask)))
  }

  /** read_to_field of an epicsUInt32. */
  method ReadWord(data: DBuffer<bv8>, offset: nat) returns (ok: bool, temp: bv32)
    requires data.Valid()
    ensures ok <==> InBlock(data.View(), offset, REG)
    ensures ok ==> temp == RegAt(data.View(), offset)
  {
    hide FromMemory, Reverse;
    var field;
    ok, field := ReadToField(data, offset, REG);
    temp := if ok then FromMemory(field) else 0;
  }

  /** read_binary: bi, mbbi and mbbiDirect. */
  method ReadBinary(data: DBuffer<bv8>, offset: nat, mask: bv32) returns (ok: bool, rval: bv32)
    requires data.Valid()
    ensures ok <==> InBlock(data.View(), offset, REG)
    ensures ok ==> rval == if mask != 0 then RegAt(data.View(), offset) & mask else RegAt(data.View(), offset)
  {
    ok, rval := ReadWord(data, offset);
    if ok && mask != 0 {
      rval := rval & mask;
    }
  }

  /** write_from_field of an epicsUInt32. */
  method WriteWord(data: DBuffer<bv8>, offset: nat, temp: bv32) returns (ok: bool)
    requires data.Valid()
    modifies data
    ensures data.Valid() && Written(data.View(), ok) == WriteBytes(old(data.View()), offset, OnWire(temp))
  {
    hide Memory, Reverse, WriteBytes;
    ok := WriteFromField(data, offset, Memory(temp));
  }

  /** write_binary: bo, mbbo and mbboDirect. */
  method WriteBinary(data: DBuffer<bv8>, offset: nat, rval: bv32, mask: bv32) returns (ok: bool)
    requires data.Valid()
    modifies data
    ensures data.Valid() && Written(data.View(), ok) == WriteReg(old(data.View()), offset, rval, mask)
  {
    hide RegAt, OnWire, WriteBytes, WriteReg, Merge;
    var temp: bv32 := 0;
    WriteRegCases(data.View(), offset, rval, mask);
    if mask != 0 {
      ok, temp := ReadWord(data, offset);
      if !ok {
        return;
      }
      temp := temp & !mask;
      temp := temp | (rval & mask);
    } else {
      temp := rval;
    }
    ok := WriteWord(data, offset, temp);
  }

  lemma WriteRegCases(v: Bytes, offset: nat, rval: bv32, mask: bv32)
    ensures mask == 0 ==> WriteReg(v, offset, rval, mask) == WriteBytes(v, offset, OnWire(rval))
    ensures mask != 0 && !InBlock(v, offset, REG) ==> WriteReg(v, offset, rval, mask) == Written(v, false)
    ensures mask != 0 && InBlock(v, offset, REG) ==>
              WriteReg(v, offset, rval, mask) ==
              WriteBytes(v, offset, OnWire((RegAt(v, offset) & !mask) | (rval & mask)))
  {
    hide RegAt, OnWire, WriteBytes;
  }

  // ----- what a masked write does -----

  lemma MergeBits(was: bv32, rval: bv32, mask: bv32)
    requires mask != 0
    ensures Merge(was, rval, mask) & !mask == was & !mask
    ensures Merge(was, rval, mask) & mask == rval & mask
  {
  }

  lemma RegAfterBlit(v: Bytes, offset: nat, w: bv32)
    requires InBlock(v, offset, REG)
    ensures InBlock(Blit(v, offset, OnWire(w)), offset, REG) && RegAt(Blit(v, offset, OnWire(w)), offset) == w
  {
    hide Word, OnWire, Blit;
    BlitSlices(v, offset, OnWire(w), 0, 0);
    WordsOnWire(w, OnWire(w));
  }

  /** A masked write that fits sets the masked bits as asked, keeps the other bits of the
      register, keeps every other byte, and reads back. */
  lemma MaskedWriteTouchesOnlyMask(v: Bytes, offset: nat, rval: bv32, mask: bv32)
    requires InBlock(v, offset, REG) && mask != 0
    ensures var w := WriteReg(v, offset, rval, mask);
            && w.ok && InBlock(w.data, offset, REG) && |w.data| == |v|
            && RegAt(w.data, offset) & mask == rval & mask
            && RegAt(w.data, offset) & !mask == RegAt(v, offset) & !mask
            && w.data[..offset] == v[..offset] && w.data[offset + REG..] == v[offset + REG..]
  {
    hide Word, OnWire, Merge, Blit, RegAt;
    var was := RegAt(v, offset);
    var m := Merge(was, rval, mask);
    assert WriteReg(v, offset, rval, mask) == Written(Blit(v, offset, OnWire(m)), true);
    RegAfterBlit(v, offset, m);
    MergeBits(was, rval, mask);
    BlitElsewhere(v, offset, OnWire(m));
  }

  /** An unmasked write that fits sets the whole register and keeps every other byte. */
  lemma UnmaskedWriteSets(v: Bytes, offset: nat, rval: bv32)
    requires InBlock(v, offset, REG)
    ensures var w := WriteReg(v, offset, rval, 0);
            && w.ok && |w.data| == |v| && RegAt(w.data, offset) == rval
            && w.data[..offset] == v[..offset] && w.data[offset + 4..] == v[offset + 4..]
  {
    hide Word, OnWire, Blit, RegAt;
    RegAfterBlit(v, offset, rval);
    BlitElsewhere(v, offset, OnWire(rval));
  }

  lemma BlitOver(v: Bytes, offset: nat, a: Bytes, b: Bytes)
    requires offset + |a| <= |v| && |a| == |b|
    ensures Blit(Blit(v, offset, a), offset, b) == Blit(v, offset, b)
  {
    BlitElsewhere(v, offset, a);
  }

  lemma MergeCommutes(w: bv32, r1: bv32, m1: bv32, r2: bv32, m2: bv32)
    requires m1 != 0 && m2 != 0 && m1 & m2 == 0
    ensures Merge(Merge(w, r1, m1), r2, m2) == Merge(Merge(w, r2, m2), r1, m1)
  {
  }

  /** Records that share a register through disjoint masks may write in either order. */
  lemma DisjointMasksCommute(v: Bytes, offset: nat, r1: bv32, m1: bv32, r2: bv32, m2: bv32)
    requires m1 != 0 && m2 != 0 && m1 & m2 == 0
    ensures WriteReg(WriteReg(v, offset, r1, m1).data, offset, r2, m2) ==
            WriteReg(WriteReg(v, offset, r2, m2).data, offset, r1, m1)
  {
    hide Word, OnWire, Blit, Merge;
    if InBlock(v, offset, REG) {
      var w := RegAt(v, offset);
      var a, b := Merge(w, r1, m1), Merge(w, r2, m2);
      RegAfterBlit(v, offset, a);
      RegAfterBlit(v, offset, b);
      BlitOver(v, offset, OnWire(a), OnWire(Merge(a, r2, m2)));
      BlitOver(v, offset, OnWire(b), OnWire(Merge(b, r1, m1)));
      MergeCommutes(w, r1, m1, r2, m2);
    }
  }

  /** A write reports failure exactly when the register does not lie in the block, and then
      leaves the block as it was, whatever the value, exactly when it was masked or began
      outside. */
  lemma FailedWriteKeepsBlockIff(v: Bytes, offset: nat, mask: bv32)
    requires !InBlock(v, offset, REG)
    ensures (forall rval :: WriteReg(v, offset, rval, mask).data == v) <==> mask != 0 || offset >= |v|
    ensures forall rval :: !WriteReg(v, offset, rval, mask).ok
  {
    if mask == 0 && offset < |v| {
      var bad := Word([!v[offset], 0, 0, 0]);
      WordsOnWire(0, [!v[offset], 0, 0, 0]);
      assert WriteReg(v, offset, bad, mask).data[offset] == !v[offset];
    }
  }
}

/** dbuffer: a byte buffer in pieces, which must behave as one flat sequence.
    The memory a stride points at is held in the stride; who owns it, and how long
    the owner says it is, in owner and total. */
module DBuffers {
  import opened Chunks

  /** libevent's byte queue. Where it breaks its bytes into extents is its own business. */
  class EvBuffer<T> {
    var data: seq<T>

    constructor ()
      ensures data == []
    {
      data := [];
    }

    method Add(bytes: seq<T>)
      modifies this
      ensures data == old(data) + bytes
    {
      data := data + bytes;
    }

    method Remove(n: nat)
      requires n <= |data|
      modifies this
      ensures data == old(data)[n..]
    {
      data := data[n..];
    }
  }

  datatype Owner = Vector | Evbuffer

  /** The first n elements, filled up with z where there are fewer. */
  function Padded<T>(v: seq<T>, n: nat, z: T): (r: seq<T>)
    ensures |r| == n && forall i :: 0 <= i < n ==> r[i] == if i < |v| then v[i] else z
  {
    if n <= |v| then v[..n] else v + seq(n - |v|, _ => z)
  }

  lemma BlitPadding<T>(v: seq<T>, n: nat, z: T)
    ensures Blit(seq(n, _ => z), 0, v[..Min(n, |v|)]) == Padded(v, n, z)
  {
  }

  // ----- strided gathers -----

  /** k elements of esize, eskip apart, fit after offset in size bytes. */
  ghost predicate ShapeFits(size: nat, offset: nat, esize: nat, eskip: nat, k: nat) {
    k == 0 || offset + k * esize + (k - 1) * eskip <= size
  }

  ghost predicate LargestShape(size: nat, offset: nat, esize: nat, eskip: nat, ecount: nat, k: nat) {
    && k <= ecount
    && ShapeFits(size, offset, esize, eskip, k)
    && forall j :: k < j <= ecount ==> !ShapeFits(size, offset, esize, eskip, j)
  }

  /** k slices of v, each esize long, starting step apart from offset. */
  ghost function Gather<T>(v: seq<T>, offset: nat, esize: nat, step: nat, k: nat): (r: seq<T>)
    requires k == 0 || offset + (k - 1) * step + esize <= |v|
    requires esize <= step
    ensures |r| == k * esize
  {
    if k == 0 then []
    else
      assert (k - 1) * step == (if k == 1 then 0 else (k - 2) * step + step);
      var last := offset + (k - 1) * step;
      Gather(v, offset, esize, step, k - 1) + v[last..last + esize]
  }

  lemma MulLe(a: nat, b: nat, d: nat)
    requires a <= b
    ensures a * d <= b * d
  {
    assert b * d == a * d + (b - a) * d;
  }

  /** Where element e of a shape that fits lies, in the buffer and in the output. */
  lemma ElementBounds(size: nat, offset: nat, esize: nat, eskip: nat, k: nat, e: nat)
    requires ShapeFits(size, offset, esize, eskip, k) && e < k
    ensures offset + e * (esize + eskip) + esize <= size
    ensures e + 1 < k ==> offset + e * (esize + eskip) + esize + eskip <= size
    ensures (e + 1) * (esize + eskip) == e * (esize + eskip) + esize + eskip
    ensures (e + 1) * esize == e * esize + esize <= k * esize
  {
    MulLe(e + 1, k, esize);
    MulLe(e, k - 1, esize + eskip);
    assert (k - 1) * (esize + eskip) + esize == k * esize + (k - 1) * eskip;
    if e + 1 < k { MulLe(e + 1, k - 1, esize + eskip); }
  }

  /** Element e, with its slice at offset + e*(esize+eskip), ends within size bytes. */
  ghost predicate ElementFits(size: nat, offset: nat, esize: nat, eskip: nat, e: nat) {
    offset + e * (esize + eskip) + esize <= size
  }

  /** A shape fits exactly if each of its elements does; the last one needs no skip behind it. */
  lemma ShapeFitsIff(size: nat, offset: nat, esize: nat, eskip: nat, k: nat)
    ensures ShapeFits(size, offset, esize, eskip, k) <==>
            forall e :: 0 <= e < k ==> ElementFits(size, offset, esize, eskip, e)
  {
    if ShapeFits(size, offset, esize, eskip, k) {
      forall e | 0 <= e < k ensures ElementFits(size, offset, esize, eskip, e) {
        ElementBounds(size, offset, esize, eskip, k, e);
      }
    } else {
      assert (k - 1) * (esize + eskip) + esize == k * esize + (k - 1) * eskip;
      assert !ElementFits(size, offset, esize, eskip, k - 1);
    }
  }

  lemma GatherNothing<T>(v: seq<T>, offset: nat, esize: nat, step: nat)
    requires esize <= step
    ensures Gather(v, offset, esize, step, 0) == []
  {
  }

  lemma {:induction false} GatherElement<T>(v: seq<T>, offset: nat, esize: nat, step: nat, k: nat, e: nat)
    requires e < k && offset + (k - 1) * step + esize <= |v| && esize <= step
    ensures 0 <= e * esize <= (e + 1) * esize <= k * esize
    ensures offset + e * step + esize <= |v|
    ensures Gather(v, offset, esize, step, k)[e * esize..(e + 1) * esize] ==
            v[offset + e * step..offset + e * step + esize]
  {
    if e < k - 1 {
      assert (k - 1) * step == (k - 2) * step + step;
      assert k * esize == (k - 1) * esize + esize;
      GatherElement(v, offset, esize, step, k - 1, e);
      var g := Gather(v, offset, esize, step, k - 1);
      assert Gather(v, offset, esize, step, k)[..|g|] == g;
    } else {
      assert k * esize == e * esize + esize;
    }
  }

  lemma DivIsLargest(a: nat, d: nat, k: nat)
    requires d > 0
    ensures k * d <= a <==> k <= a / d
  {
    var q := a / d;
    assert q * d <= a < (q + 1) * d;
    if k <= q { MulLe(k, q, d); } else { MulLe(q + 1, k, d); }
  }

  /** The floor division of the source finds the largest number of whole elements that fit. */
  lemma QuotientIsLargestShape(size: nat, offset: nat, esize: nat, eskip: nat, ecount: nat)
    requires offset < size && esize + eskip > 0
    ensures LargestShape(size, offset, esize, eskip, ecount,
                         Min((size - offset + eskip) / (esize + eskip), ecount))
  {
    var a, d := size - offset + eskip, esize + eskip;
    forall j: nat | 0 < j
      ensures ShapeFits(size, offset, esize, eskip, j) <==> j <= a / d
    {
      DivIsLargest(a, d, j);
      assert j * d == j * esize + j * eskip;
      assert (j - 1) * eskip == j * eskip - eskip;
    }
  }

  lemma OneElement<T>(v: seq<T>, offset: nat, nbytes: nat, n: nat)
    requires offset >= |v| || nbytes > 0
    requires if offset < |v| then LargestShape(|v|, offset, nbytes, 0, 1, n) else n == 0
    ensures n == 1 <==> offset + nbytes <= |v| && nbytes > 0
    ensures n == 1 ==> Gather(v, offset, nbytes, nbytes, n) == v[offset..offset + nbytes]
    ensures n != 1 ==> n == 0 && Gather(v, offset, nbytes, nbytes, n) == []
  {
    assert ShapeFits(|v|, offset, nbytes, 0, 1) <==> offset + nbytes <= |v|;
    if n == 1 { GatherOne(v, offset, nbytes); }
  }

  lemma GatherOne<T>(v: seq<T>, offset: nat, n: nat)
    requires offset + n <= |v|
    ensures Gather(v, offset, n, n, 1) == v[offset..offset + n]
  {
    assert Gather(v, offset, n, n, 1) == [] + v[offset..offset + n];
  }

  lemma NoElements(size: nat, offset: nat, esize: nat, eskip: nat)
    ensures LargestShape(size, offset, esize, eskip, 0, 0)
  {
  }

  lemma LargestFits(size: nat, offset: nat, esize: nat, eskip: nat, ecount: nat, k: nat)
    requires LargestShape(size, offset, esize, eskip, ecount, k)
    ensures k <= ecount && ShapeFits(size, offset, esize, eskip, k)
  {
  }

  /** Past the end no element with bytes in it fits: the early return loses nothing. */
  lemma NothingFitsPastEnd(size: nat, offset: nat, esize: nat, eskip: nat, ecount: nat)
    requires offset >= size && esize > 0
    ensures LargestShape(size, offset, esize, eskip, ecount, 0)
  {
    forall j: nat | 0 < j
      ensures !ShapeFits(size, offset, esize, eskip, j)
    {
      MulLe(1, j, esize);
    }
  }

  lemma GatherMore<T>(v: seq<T>, offset: nat, esize: nat, step: nat, e: nat)
    requires esize <= step && offset + e * step + esize <= |v|
    requires e == 0 || offset + (e - 1) * step + esize <= |v|
    ensures Gather(v, offset, esize, step, e + 1) ==
            Gather(v, offset, esize, step, e) + v[offset + e * step..offset + e * step + esize]
  {
  }

  lemma AppendElement<T>(d0: seq<T>, v: seq<T>, offset: nat, esize: nat, step: nat, e: nat,
                         before: seq<T>, after: seq<T>)
    requires esize <= step && offset + e * step + esize <= |v|
    requires e == 0 || offset + (e - 1) * step + esize <= |v|
    requires e * esize + esize <= |d0|
    requires before == Blit(d0, 0, Gather(v, offset, esize, step, e))
    requires after == Blit(before, e * esize, v[offset + e * step..offset + e * step + esize])
    ensures (e + 1) * esize == e * esize + esize
    ensures after == Blit(d0, 0, Gather(v, offset, esize, step, e + 1))
  {
    hide Blit, Gather;
    var pos := offset + e * step;
    GatherMore(v, offset, esize, step, e);
    BlitTwice(d0, 0, Gather(v, offset, esize, step, e), v[pos..pos + esize]);
  }

  // ----- the buffer -----

  class DBuffer<T(0)> {
    const zero: T
    var strides: seq<seq<T>>
    var owner: Owner
    var total: nat

    ghost predicate Valid()
      reads this
    {
      && total == |Flatten(strides)|
      && (owner.Vector? ==> |strides| <= 1)
    }

    ghost function View(): seq<T>
      reads this
    {
      Flatten(strides)
    }

    constructor Empty(zero: T)
      ensures Valid() && View() == [] && this.zero == zero
    {
      this.zero := zero;
      strides, owner, total := [], Vector, 0;
    }

    constructor (zero: T, n: nat)
      ensures Valid() && View() == seq(n, _ => zero) && this.zero == zero
    {
      this.zero := zero;
      strides, owner, total := [seq(n, _ => zero)], Vector, n;
    }

    function Size(): (n: nat)
      requires Valid()
      reads this
      ensures n == |View()|
    {
      total
    }

    method Swap(o: DBuffer<T>)
      modifies this, o
      ensures strides == old(o.strides) && owner == old(o.owner) && total == old(o.total)
      ensures o.strides == old(strides) && o.owner == old(owner) && o.total == old(total)
    {
      if this != o {
        strides, o.strides := o.strides, strides;
        owner, o.owner := o.owner, owner;
        total, o.total := o.total, total;
      }
    }

    method Resize(newlen: nat)
      requires Valid()
      modifies this
      ensures Valid() && owner == Vector
      ensures View() == Padded(old(View()), newlen, zero)
    {
      hide Padded, Flatten;
      var s;
      if owner.Evbuffer? {
        s := Gathered(newlen);
      } else {
        s := Padded(if strides != [] then strides[0] else [], newlen, zero);
        FlattenAtMostOne(strides);
      }
      strides, owner, total := [s], Vector, newlen;
      FlattenOne(s);
    }

    method Gathered(newlen: nat) returns (s: seq<T>)
      requires Valid()
      ensures s == Padded(View(), newlen, zero)
    {
      hide Padded, Flatten, Blit;
      var ptr := new StridePtr(this);
      var d := new T[newlen](_ => zero);
      assert d[..] == seq(newlen, _ => zero);
      var n := ptr.Read(newlen, d, 0);
      s := d[..];
      BlitPadding(View(), newlen, zero);
      assert View()[..n] == View()[0..n];
    }

    method Assign(bytes: seq<T>)
      modifies this
      ensures Valid() && owner == Vector && View() == bytes
    {
      strides, owner, total := [bytes], Vector, |bytes|;
    }

    /** Moves up to len bytes out of buf; libevent chooses the extents they come in. */
    method Consume(buf: EvBuffer<T>, len: nat, extents: seq<seq<T>>)
      requires Flatten(extents) == buf.data[..Min(len, |buf.data|)]
      modifies this, buf
      ensures Valid() && owner == Evbuffer
      ensures View() == old(buf.data)[..Min(len, |old(buf.data)|)]
      ensures buf.data == old(buf.data)[Min(len, |old(buf.data)|)..]
      ensures strides == extents
    {
      var len' := Min(len, |buf.data|);
      var temp := new DBuffer.Empty(zero);
      temp.owner, temp.total := Evbuffer, len';
      buf.Remove(len');
      var room := 2;
      while room < |extents|
        decreases |extents| - room
        invariant room > 0
      {
        room := 2 * room;
      }
      temp.strides := extents;
      Swap(temp);
    }

    /** Overwrites in place, stride by stride; reports whether all of it fitted, but writes
        what does fit either way. */
    method CopyIn(src: seq<T>, offset: nat) returns (ok: bool)
      requires Valid()
      modifies this
      ensures Valid() && owner == old(owner) && SameShape(strides, old(strides))
      ensures var v := old(View());
              var p := Min(offset, |v|);
              var m := Min(|src|, |v| - p);
              View() == Blit(v, p, src[..m]) && ok == (m == |src|)
      ensures src != [] ==> (ok <==> offset + |src| <= |old(View())|)
    {
      hide Blit, Flatten;
      var ptr := new StridePtr(this);
      var _ := ptr.Skip(offset);
      var n := ptr.Write(src);
      ok := n == |src|;
    }

    method CopyOutShape(dest: array<T>, offset: nat, esize: nat, eskip: nat, ecount: nat) returns (count: nat)
      requires Valid() && ecount * esize <= dest.Length
      requires ecount == 0 || offset >= |View()| || esize + eskip > 0
      modifies dest
      ensures offset < |View()| ==> LargestShape(|View()|, offset, esize, eskip, ecount, count)
      ensures offset >= |View()| ==> count == 0
      ensures count * esize <= dest.Length
      ensures count == 0 || offset + (count - 1) * (esize + eskip) + esize <= |View()|
      ensures dest[..] == Blit(old(dest[..]), 0, Gather(View(), offset, esize, esize + eskip, count))
    {
      hide Blit, ShapeFits, LargestShape, Gather;
      BlitNothing(dest[..], 0);
      GatherNothing(View(), offset, esize, esize + eskip);
      if ecount == 0 || offset >= total {
        NoElements(total, offset, esize, eskip);
        return 0;
      }
      var actual := Min((total - offset + eskip) / (esize + eskip), ecount);
      QuotientIsLargestShape(total, offset, esize, eskip, ecount);
      count := actual;
      MulLe(count, ecount, esize);
      LargestFits(total, offset, esize, eskip, ecount, count);
      CopyElements(dest, offset, esize, eskip, count);
    }

    /** The loop of copyout_shape, for a number of elements that are there. */
    method CopyElements(dest: array<T>, offset: nat, esize: nat, eskip: nat, actual: nat)
      requires Valid() && offset <= |View()| && actual * esize <= dest.Length
      requires ShapeFits(|View()|, offset, esize, eskip, actual)
      modifies dest
      ensures actual == 0 || offset + (actual - 1) * (esize + eskip) + esize <= |View()|
      ensures dest[..] == Blit(old(dest[..]), 0, Gather(View(), offset, esize, esize + eskip, actual))
    {
      hide Blit, ShapeFits, Gather;
      BlitNothing(dest[..], 0);
      GatherNothing(View(), offset, esize, esize + eskip);
      ghost var step := esize + eskip;
      ghost var d0 := dest[..];
      var ptr := new StridePtr(this);
      var _ := ptr.Skip(offset);
      var d := 0;
      var e := 0;
      while e < actual
        invariant 0 <= e <= actual
        invariant ptr.Valid() && ptr.buf == this
        invariant e < actual ==> ptr.Pos() == offset + e * step
        invariant e == 0 || offset + (e - 1) * step + esize <= |View()|
        invariant d == e * esize <= dest.Length
        invariant dest[..] == Blit(d0, 0, Gather(View(), offset, esize, step, e))
        modifies ptr, dest
      {
        ElementBounds(|View()|, offset, esize, eskip, actual, e);
        ghost var before := dest[..];
        var ncopied := ptr.Read(esize, dest, d);
        AppendElement(d0, View(), offset, esize, step, e, before, dest[..]);
        d := d + ncopied;
        if e < actual - 1 {
          var _ := ptr.Skip(eskip);
        }
        e := e + 1;
      }
    }

    method CopyOut(dest: array<T>, offset: nat, nbytes: nat) returns (ok: bool)
      requires Valid() && nbytes <= dest.Length && (offset >= |View()| || nbytes > 0)
      modifies dest
      ensures ok <==> offset + nbytes <= |View()| && nbytes > 0
      ensures dest[..] == if ok then Blit(old(dest[..]), 0, View()[offset..offset + nbytes]) else old(dest[..])
    {
      hide Blit, Gather, LargestShape;
      var n := CopyOutShape(dest, offset, nbytes, 0, 1);
      ok := n == 1;
      OneElement(View(), offset, nbytes, n);
      if !ok { BlitNothing(old(dest[..]), 0); }
    }

    /** Appends the whole contents to a libevent buffer, one add for each stride. */
    method CopyOutAll(dest: EvBuffer<T>)
      requires Valid()
      modifies dest
      ensures dest.data == old(dest.data) + View()
    {
      var i := 0;
      while i < |strides|
        invariant 0 <= i <= |strides|
        invariant dest.data == old(dest.data) + Flatten(strides[..i])
      {
        dest.Add(strides[i]);
        FlattenSnoc(strides[..i], strides[i]);
        assert strides[..i + 1] == strides[..i] + [strides[i]];
        i := i + 1;
      }
      assert strides[..i] == strides;
    }
  }

  /** The cursor: an index into strides and an offset into that stride. */
  class StridePtr<T(0)> {
    const buf: DBuffer<T>
    var stride: nat
    var off: nat

    constructor (buf: DBuffer<T>)
      ensures this.buf == buf && Valid() && Pos() == 0
    {
      this.buf := buf;
      stride, off := 0, 0;
    }

    ghost predicate Valid()
      reads this, buf
    {
      && stride <= |buf.strides|
      && (off == 0 || (stride < |buf.strides| && off < |buf.strides[stride]|))
    }

    /** The position in the flat sequence. */
    ghost function Pos(): nat
      requires Valid()
      reads this, buf
    {
      Start(buf.strides, stride) + off
    }

    lemma PosBound()
      requires Valid()
      ensures Pos() <= |buf.View()|
    {
      StartBound(buf.strides, stride);
      if stride < |buf.strides| { PieceIsSlice(buf.strides, stride); }
    }

    /** copy(n, 0, true): moves n on, or to the end. */
    method Skip(n: nat) returns (nmoved: nat)
      requires Valid() && buf.Valid()
      modifies this
      ensures Valid() && old(Pos()) <= |buf.View()|
      ensures nmoved == Min(n, |buf.View()| - old(Pos()))
      ensures Pos() == old(Pos()) + nmoved
    {
      PosBound();
      nmoved := 0;
      var left: nat := n;
      while left > 0 && stride < |buf.strides|
        invariant Valid() && left + nmoved == n
        invariant Pos() == old(Pos()) + nmoved <= |buf.View()|
        decreases |buf.strides| - stride, left
      {
        var here := Advance(left);
        left, nmoved := left - here, nmoved + here;
      }
      if stride == |buf.strides| { StartEnd(buf.strides); }
    }

    /** copy(n, dest, true): moves on like Skip, and copies what it passes over to dest. */
    method Read(n: nat, dest: array<T>, at: nat) returns (nmoved: nat)
      requires Valid() && buf.Valid() && at + n <= dest.Length
      modifies this, dest
      ensures Valid() && old(Pos()) <= |buf.View()|
      ensures nmoved == Min(n, |buf.View()| - old(Pos()))
      ensures Pos() == old(Pos()) + nmoved
      ensures dest[..] == Blit(old(dest[..]), at, buf.View()[old(Pos())..old(Pos()) + nmoved])
    {
      hide Blit;
      PosBound();
      nmoved := 0;
      var left: nat := n;
      ghost var v, p, d0 := buf.View(), Pos(), dest[..];
      BlitNothing(d0, at);
      assert v[p..p] == [];
      while left > 0 && stride < |buf.strides|
        invariant Valid() && left + nmoved == n
        invariant Pos() == p + nmoved <= |v|
        invariant dest[..] == Blit(d0, at, v[p..p + nmoved])
        decreases |buf.strides| - stride, left
      {
        ghost var before := dest[..];
        var piece := buf.strides[stride][off..off + Min(left, |buf.strides[stride]| - off)];
        PieceUnderCursor(piece);
        WriteAt(dest, at + nmoved, piece);
        BlitMore(d0, at, v, p, nmoved, |piece|, before, dest[..]);
        var here := Advance(left);
        left, nmoved := left - here, nmoved + here;
      }
      if stride == |buf.strides| { StartEnd(buf.strides); }
    }

    /** copy(|src|, src, false): moves on like Skip, and overwrites what it passes over. */
    method Write(src: seq<T>) returns (nmoved: nat)
      requires Valid() && buf.Valid()
      modifies this, buf
      ensures Valid() && buf.Valid()
      ensures old(Pos()) <= |old(buf.View())|
      ensures nmoved == Min(|src|, |old(buf.View())| - old(Pos()))
      ensures Pos() == old(Pos()) + nmoved
      ensures buf.View() == Blit(old(buf.View()), old(Pos()), src[..nmoved])
      ensures buf.owner == old(buf.owner) && SameShape(buf.strides, old(buf.strides))
    {
      hide Blit;
      PosBound();
      nmoved := 0;
      var left: nat := |src|;
      ghost var v, p := buf.View(), Pos();
      BlitNothing(v, p);
      while left > 0 && stride < |buf.strides|
        invariant Valid() && buf.Valid() && left + nmoved == |src|
        invariant Pos() == p + nmoved <= |v|
        invariant buf.View() == Blit(v, p, src[..nmoved])
        invariant buf.owner == old(buf.owner) && SameShape(buf.strides, old(buf.strides))
        decreases |buf.strides| - stride, left
      {
        ghost var before := buf.View();
        var piece := src[nmoved..nmoved + Min(left, |buf.strides[stride]| - off)];
        WriteInStride(piece);
        BlitTwice(v, p, src[..nmoved], piece);
        assert src[..nmoved] + piece == src[..nmoved + |piece|];
        var here := Advance(left);
        left, nmoved := left - here, nmoved + here;
      }
      if stride == |buf.strides| { StartEnd(buf.strides); }
    }

    lemma PieceUnderCursor(piece: seq<T>)
      requires Valid() && stride < |buf.strides| && off + |piece| <= |buf.strides[stride]|
      requires piece == buf.strides[stride][off..off + |piece|]
      ensures Pos() + |piece| <= |buf.View()|
      ensures piece == buf.View()[Pos()..Pos() + |piece|]
    {
      PieceIsSlice(buf.strides, stride);
    }

    /** The move of one pass: on into the current stride, or to the start of the next. */
    method Advance(n: nat) returns (here: nat)
      requires Valid() && stride < |buf.strides|
      modifies this
      ensures Valid()
      ensures here == Min(n, |buf.strides[old(stride)]| - old(off))
      ensures Pos() == old(Pos()) + here <= |buf.View()|
      ensures stride == (if n >= |buf.strides[old(stride)]| - old(off) then old(stride) + 1 else old(stride))
    {
      var avail := |buf.strides[stride]| - off;
      StartStep(buf.strides, stride);
      if n >= avail {
        stride, off, here := stride + 1, 0, avail;
      } else {
        off, here := off + n, n;
      }
      PosBound();
    }

    /** memcpy into the memory under the cursor. */
    method WriteInStride(piece: seq<T>)
      requires Valid() && buf.Valid() && stride < |buf.strides| && off + |piece| <= |buf.strides[stride]|
      modifies buf
      ensures Valid() && buf.Valid() && Pos() == old(Pos())
      ensures old(Pos()) + |piece| <= |old(buf.View())|
      ensures buf.View() == Blit(old(buf.View()), old(Pos()), piece)
      ensures buf.owner == old(buf.owner) && SameShape(buf.strides, old(buf.strides))
    {
      hide Blit, Flatten, Start;
      var ss, cur := buf.strides, buf.strides[stride];
      BlitPiece(ss, stride, off, piece);
      var tt := ss[stride := Blit(cur, off, piece)];
      StartSameShape(ss, tt, stride);
      buf.strides := tt;
    }
  }
}

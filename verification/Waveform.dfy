/** read_wf_real and write_wf: arrays of T in a block's data, arrays of double in a record. */
module Waveform {
  import opened Framing
  import opened Chunks
  import opened DBuffers
  import opened HostOrder

  const DOUBLE := 8

  /** The conversion (double)raw, from T's bytes in memory to a double's. */
  ghost predicate Widens(cast: seq<byte> -> seq<byte>) { forall x :: |cast(x)| == DOUBLE }

  /** Source step, in bytes: a step of 0, or one shorter than an element, is an element. */
  function StepOf(step: nat, size: nat): (r: nat)
    ensures step >= size ==> r == step
    ensures step < size ==> r == size
  {
    if step >= size then step else size
  }

  /** Double e is the conversion of the e-th size bytes in the data, turned round. */
  ghost predicate Reads(m: seq<byte>, e: nat, cast: seq<byte> -> seq<byte>, v: seq<byte>,
                        offset: nat, stride: nat, size: nat)
  {
    var at := offset + e * stride;
    && at + size <= |v| && DOUBLE * e + DOUBLE <= |m|
    && m[DOUBLE * e..DOUBLE * e + DOUBLE] == cast(Reverse(v[at..at + size]))
  }

  /** Element e of the source, as T has it in memory after ntoh. */
  ghost function Element(v: seq<byte>, offset: nat, size: nat, step: nat, e: nat): seq<byte>
    requires offset + e * step + size <= |v|
  {
    Hton(v[offset + e * step..offset + e * step + size])
  }

  /** Element e has been replaced by its double. */
  ghost predicate DoubleAt(m: seq<byte>, cast: seq<byte> -> seq<byte>, v: seq<byte>,
                           offset: nat, size: nat, step: nat, e: nat)
  {
    && offset + e * step + size <= |v| && DOUBLE * e + DOUBLE <= |m|
    && m[DOUBLE * e..DOUBLE * e + DOUBLE] == cast(Element(v, offset, size, step, e))
  }

  ghost predicate Doubles(m: seq<byte>, cast: seq<byte> -> seq<byte>, v: seq<byte>,
                          offset: nat, size: nat, step: nat, n: nat, i: nat)
  {
    forall e :: i <= e < n ==> DoubleAt(m, cast, v, offset, size, step, e)
  }

  /** The first i elements lie packed in the record's buffer, the doubles of the others are
      spread out behind them. */
  ghost predicate Widened(m: seq<byte>, cast: seq<byte> -> seq<byte>, v: seq<byte>,
                          offset: nat, size: nat, step: nat, n: nat, i: nat)
    requires InData(v, offset, size, step, n) && i <= n && DOUBLE * n <= |m| && size <= DOUBLE
  {
    && i * size <= DOUBLE * i
    && m[..i * size] == Gather(v, offset, size, step, i)
    && Doubles(m, cast, v, offset, size, step, n, i)
  }

  ghost predicate InData(v: seq<byte>, offset: nat, size: nat, step: nat, n: nat) {
    size <= step && (forall e {:trigger e * step} :: 0 <= e < n ==> offset + e * step + size <= |v|)
  }

  lemma InDataFromLast(v: seq<byte>, offset: nat, size: nat, step: nat, n: nat)
    requires size <= step && (n == 0 || offset + (n - 1) * step + size <= |v|)
    ensures InData(v, offset, size, step, n)
  {
    forall e {:trigger e * step} | 0 <= e < n ensures offset + e * step + size <= |v| { MulLe(e, n - 1, step); }
  }

  /** The double of element k covers bytes that no packed element before it uses ... */
  lemma WidenSparesPacked(m: seq<byte>, v: seq<byte>, offset: nat, size: nat, step: nat, k: nat, x: seq<byte>)
    requires size <= step && size <= DOUBLE && offset + k * step + size <= |v|
    requires k == 0 || offset + (k - 1) * step + size <= |v|
    requires |x| == DOUBLE && DOUBLE * k + DOUBLE <= |m|
    requires (k + 1) * size == k * size + size <= |m|
    requires m[..(k + 1) * size] == Gather(v, offset, size, step, k + 1)
    ensures k * size <= DOUBLE * k
    ensures m[k * size..k * size + size] == v[offset + k * step..offset + k * step + size]
    ensures Blit(m, DOUBLE * k, x)[..k * size] == Gather(v, offset, size, step, k)
  {
    hide Blit, Gather;
    MulLe(size, DOUBLE, k);
    GatherMore(v, offset, size, step, k);
    var packed := m[..(k + 1) * size];
    assert m[k * size..k * size + size] == packed[k * size..];
    BlitSlices(m, DOUBLE * k, x, 0, k * size);
    assert m[0..k * size] == packed[..k * size];
    assert Blit(m, DOUBLE * k, x)[..k * size] == Blit(m, DOUBLE * k, x)[0..k * size];
  }

  lemma DoublesGrow(m: seq<byte>, cast: seq<byte> -> seq<byte>, v: seq<byte>,
                    offset: nat, size: nat, step: nat, n: nat, k: nat)
    requires Widens(cast) && k < n && DOUBLE * n <= |m|
    requires offset + k * step + size <= |v|
    requires Doubles(m, cast, v, offset, size, step, n, k + 1)
    ensures Doubles(Blit(m, DOUBLE * k, cast(Element(v, offset, size, step, k))), cast, v, offset, size, step, n, k)
  {
    var x := cast(Element(v, offset, size, step, k));
    forall e | k <= e < n
      ensures DoubleAt(Blit(m, DOUBLE * k, x), cast, v, offset, size, step, e)
    {
      assert e > k ==> DoubleAt(m, cast, v, offset, size, step, e);
      DoubleStays(m, cast, v, offset, size, step, k, e);
    }
  }

  lemma DoubleStays(m: seq<byte>, cast: seq<byte> -> seq<byte>, v: seq<byte>,
                    offset: nat, size: nat, step: nat, k: nat, e: nat)
    requires Widens(cast) && k <= e && DOUBLE * e + DOUBLE <= |m|
    requires offset + k * step + size <= |v|
    requires e > k ==> DoubleAt(m, cast, v, offset, size, step, e)
    ensures DoubleAt(Blit(m, DOUBLE * k, cast(Element(v, offset, size, step, k))), cast, v, offset, size, step, e)
  {
    hide Hton, Blit;
    BlitSlices(m, DOUBLE * k, cast(Element(v, offset, size, step, k)), DOUBLE * e, DOUBLE * e + DOUBLE);
  }

  /** ... and none of the doubles behind it: widening element k in place makes progress. */
  lemma WidenOne(m: seq<byte>, m': seq<byte>, cast: seq<byte> -> seq<byte>, v: seq<byte>,
                 offset: nat, size: nat, step: nat, n: nat, k: nat)
    requires Widens(cast) && InData(v, offset, size, step, n) && k < n && DOUBLE * n <= |m| && size <= DOUBLE
    requires Widened(m, cast, v, offset, size, step, n, k + 1)
    requires (k + 1) * size == k * size + size
    requires m' == Blit(m, DOUBLE * k, cast(Hton(m[k * size..k * size + size])))
    ensures Widened(m', cast, v, offset, size, step, n, k)
  {
    hide Hton, Blit, InData, Gather, Doubles;
    InDataAt(v, offset, size, step, n, k);
    if k > 0 { InDataAt(v, offset, size, step, n, k - 1); }
    var x := cast(Hton(m[k * size..k * size + size]));
    WidenSparesPacked(m, v, offset, size, step, k, x);
    DoublesGrow(m, cast, v, offset, size, step, n, k);
  }

  lemma InDataAt(v: seq<byte>, offset: nat, size: nat, step: nat, n: nat, e: nat)
    requires InData(v, offset, size, step, n) && e < n
    ensures size <= step && offset + e * step + size <= |v|
  {
  }

  /** The record's buffer receives the packed elements and is widened backwards in place. The
      result is, element by element, what widening out of place would give: as many elements
      as there are in the data, up to nelm, and the memory behind them untouched. */
  method ReadWf(data: DBuffer<byte>, bptr: array<byte>, nelm: nat, offset: nat, step: nat, size: nat,
                cast: seq<byte> -> seq<byte>) returns (nord: nat)
    requires data.Valid() && DOUBLE * nelm <= bptr.Length
    requires 0 < size <= DOUBLE && Widens(cast)
    modifies bptr
    ensures LargestShape(|data.View()|, offset, size, if step >= size then step - size else 0, nelm, nord)
    ensures var stride := if step >= size then step else size;
            forall e :: 0 <= e < nord ==> Reads(bptr[..], e, cast, data.View(), offset, stride, size)
    ensures bptr[DOUBLE * nord..] == old(bptr[DOUBLE * nord..])
  {
    hide LargestShape, ShapeFits, Widened, Fits, Reads, Gather, Blit, InData, Element;
    var step' := StepOf(step, size);
    var skip := step' - size;
    ghost var v := data.View();
    assert nelm * size <= DOUBLE * nelm by { MulLe(size, DOUBLE, nelm); }
    nord := data.CopyOutShape(bptr, offset, size, skip, nelm);
    if offset >= |v| { NothingFitsPastEnd(|v|, offset, size, skip, nelm); }
    assert nord <= nelm by { LargestFits(|v|, offset, size, skip, nelm, nord); }
    InDataFromLast(v, offset, size, step', nord);
    assert nord * size <= DOUBLE * nord by { MulLe(size, DOUBLE, nord); }
    Packed(bptr[..], old(bptr[..]), cast, v, offset, size, step', nord);
    WidenInPlace(bptr, nord, size, cast, v, offset, step');
    AllRead(bptr[..], cast, v, offset, size, step', nord);
  }

  /** The backward loop; what is in the buffer is as the ghost parameters say. */
  method WidenInPlace(bptr: array<byte>, nelem: nat, size: nat, cast: seq<byte> -> seq<byte>,
                      ghost v: seq<byte>, ghost offset: nat, ghost step: nat)
    requires DOUBLE * nelem <= bptr.Length && 0 < size <= DOUBLE && Widens(cast)
    requires InData(v, offset, size, step, nelem)
    requires Widened(bptr[..], cast, v, offset, size, step, nelem, nelem)
    modifies bptr
    ensures Widened(bptr[..], cast, v, offset, size, step, nelem, 0)
    ensures bptr[..][DOUBLE * nelem..] == old(bptr[..])[DOUBLE * nelem..]
  {
    hide Widened, InData, Blit;
    var i := nelem;
    while i > 0
      invariant 0 <= i <= nelem
      invariant Widened(bptr[..], cast, v, offset, size, step, nelem, i)
      invariant bptr[..][DOUBLE * nelem..] == old(bptr[..])[DOUBLE * nelem..]
    {
      ghost var m := bptr[..];
      i := i - 1;
      MulSucc(i, size);
      MulLe(size, DOUBLE, i + 1);
      var raw := bptr[i * size..i * size + size];
      assert raw == m[i * size..i * size + size];
      WriteAt(bptr, DOUBLE * i, cast(Hton(raw)));
      BlitSlices(m, DOUBLE * i, cast(Hton(raw)), DOUBLE * nelem, |m|);
      assert bptr[..][DOUBLE * nelem..] == bptr[..][DOUBLE * nelem..|m|];
      WidenOne(m, bptr[..], cast, v, offset, size, step, nelem, i);
    }
  }

  lemma Packed(m: seq<byte>, m0: seq<byte>, cast: seq<byte> -> seq<byte>, v: seq<byte>,
               offset: nat, size: nat, step: nat, n: nat)
    requires InData(v, offset, size, step, n) && DOUBLE * n <= |m0| && size <= DOUBLE && n * size <= DOUBLE * n
    requires n == 0 || offset + (n - 1) * step + size <= |v|
    requires m == Blit(m0, 0, Gather(v, offset, size, step, n))
    ensures |m| == |m0| && Widened(m, cast, v, offset, size, step, n, n)
    ensures m[DOUBLE * n..] == m0[DOUBLE * n..]
  {
    BlitFront(m0, Gather(v, offset, size, step, n));
    assert m[DOUBLE * n..] == m[n * size..][DOUBLE * n - n * size..];
  }

  lemma AllRead(m: seq<byte>, cast: seq<byte> -> seq<byte>, v: seq<byte>,
                offset: nat, size: nat, step: nat, n: nat)
    requires InData(v, offset, size, step, n) && DOUBLE * n <= |m| && size <= DOUBLE
    requires Widened(m, cast, v, offset, size, step, n, 0)
    ensures forall e :: 0 <= e < n ==> Reads(m, e, cast, v, offset, step, size)
  {
    hide Hton, Reverse;
    forall e | 0 <= e < n ensures Reads(m, e, cast, v, offset, step, size) {
      assert DoubleAt(m, cast, v, offset, size, step, e);
      HtonReverses(v[offset + e * step..offset + e * step + size]);
    }
  }

  // ----- writing -----

  /** A conversion from double, on bytes in memory, makes elements of this size. */
  ghost predicate Narrows(cast: seq<byte> -> seq<byte>, size: nat) { forall x :: |cast(x)| == size }

  /** The record's first n doubles, converted. */
  function Elements(bptr: seq<byte>, n: nat, cast: seq<byte> -> seq<byte>): (r: seq<seq<byte>>)
    requires DOUBLE * n <= |bptr|
    ensures |r| == n
  {
    seq(n, i requires 0 <= i < n => cast(bptr[DOUBLE * i..DOUBLE * i + DOUBLE]))
  }

  ghost predicate AllOfSize(xs: seq<seq<byte>>, size: nat) { forall i :: 0 <= i < |xs| ==> |xs[i]| == size }

  /** Elements on the wire: each after hton, one after the other. */
  function Wire(xs: seq<seq<byte>>): seq<byte> {
    if xs == [] then [] else Wire(xs[..|xs| - 1]) + Hton(xs[|xs| - 1])
  }

  /** The e-th size bytes are the conversion of the e-th double, turned round. */
  ghost predicate Sends(to: seq<byte>, e: nat, size: nat, cast: seq<byte> -> seq<byte>, bptr: seq<byte>) {
    var at := e * size;
    && 0 <= at && at + size <= |to| && DOUBLE * e + DOUBLE <= |bptr|
    && to[at..at + size] == Reverse(cast(bptr[DOUBLE * e..DOUBLE * e + DOUBLE]))
  }

  lemma AllSent(bptr: seq<byte>, n: nat, cast: seq<byte> -> seq<byte>, size: nat)
    requires DOUBLE * n <= |bptr| && Narrows(cast, size)
    ensures var xs := Elements(bptr, n, cast);
            |Wire(xs)| == n * size && forall e :: 0 <= e < n ==> Sends(Wire(xs), e, size, cast, bptr)
  {
    hide Hton, Wire, Elements, Reverse;
    var xs := Elements(bptr, n, cast);
    ElementsAre(bptr, n, cast, size);
    WireLength(xs, size);
    forall e | 0 <= e < n ensures Sends(Wire(xs), e, size, cast, bptr) {
      WireElement(xs, size, e);
      HtonReverses(xs[e]);
    }
  }

  method WriteWf(bptr: array<byte>, nord: nat, size: nat, cast: seq<byte> -> seq<byte>) returns (to: seq<byte>)
    requires DOUBLE * nord <= bptr.Length && Narrows(cast, size)
    ensures to == Wire(Elements(bptr[..], nord, cast)) && AllOfSize(Elements(bptr[..], nord, cast), size)
    ensures |to| == nord * size && forall e :: 0 <= e < nord ==> Sends(to, e, size, cast, bptr[..])
  {
    hide Hton, Wire, Elements, Sends;
    ghost var m, xs := bptr[..], Elements(bptr[..], nord, cast);
    ElementsAre(m, nord, cast, size);
    AllSent(m, nord, cast, size);
    to := [];
    assert Wire(xs[..0]) == [] by { WireOfNone(xs); }
    var i := 0;
    while i < nord
      invariant i <= nord && to == Wire(xs[..i])
    {
      var pfrom := bptr[DOUBLE * i..DOUBLE * i + DOUBLE];
      assert pfrom == m[DOUBLE * i..DOUBLE * i + DOUBLE];
      to := to + Hton(cast(pfrom));
      WireOneMore(xs, i);
      i := i + 1;
    }
    assert xs[..i] == xs;
  }

  lemma ElementsAre(bptr: seq<byte>, n: nat, cast: seq<byte> -> seq<byte>, size: nat)
    requires DOUBLE * n <= |bptr| && Narrows(cast, size)
    ensures AllOfSize(Elements(bptr, n, cast), size)
    ensures forall i :: 0 <= i < n ==> Elements(bptr, n, cast)[i] == cast(bptr[DOUBLE * i..DOUBLE * i + DOUBLE])
  {
  }

  lemma WireOfNone(xs: seq<seq<byte>>)
    ensures Wire(xs[..0]) == []
  {
  }

  lemma WireOneMore(xs: seq<seq<byte>>, i: nat)
    requires i < |xs|
    ensures Wire(xs[..i + 1]) == Wire(xs[..i]) + Hton(xs[i])
  {
    assert xs[..i + 1][..i] == xs[..i];
  }

  lemma {:induction false} WireElement(xs: seq<seq<byte>>, size: nat, e: nat)
    requires AllOfSize(xs, size) && e < |xs|
    ensures |Wire(xs)| == |xs| * size
    ensures 0 <= e * size && e * size + size <= |xs| * size
    ensures Wire(xs)[e * size..e * size + size] == Hton(xs[e])
  {
    hide Hton;
    var n := |xs| - 1;
    MulSucc(n, size);
    WireLength(xs, size);
    WireLength(xs[..n], size);
    MulLe(e + 1, n + 1, size);
    MulSucc(e, size);
    if e < n {
      WireElement(xs[..n], size, e);
      var w := Wire(xs[..n]);
      assert Wire(xs)[..n * size] == w;
      assert Wire(xs)[e * size..e * size + size] == w[e * size..e * size + size];
    }
  }

  lemma {:induction false} WireLength(xs: seq<seq<byte>>, size: nat)
    requires AllOfSize(xs, size)
    ensures |Wire(xs)| == |xs| * size
  {
    hide Hton;
    if xs != [] {
      WireLength(xs[..|xs| - 1], size);
      MulSucc(|xs| - 1, size);
    }
  }

  lemma MulSucc(n: nat, size: nat)
    ensures (n + 1) * size == n * size + size
  {
  }

  /** What a waveform sent reads back unchanged, for any type of element: a waveform record with
      room for nelm finds the first of them, and element e is, after ntoh, the e-th one sent. */
  lemma SentReadsBack(xs: seq<seq<byte>>, size: nat, nelm: nat, e: nat)
    requires size > 0 && AllOfSize(xs, size)
    ensures var n := Min(nelm, |xs|); LargestShape(|Wire(xs)|, 0, size, 0, nelm, n)
    ensures e < |xs| ==>
              0 <= e * size && e * size + size <= |Wire(xs)| && Element(Wire(xs), 0, size, size, e) == xs[e]
  {
    WireLength(xs, size);
    WireShape(|xs|, size, nelm);
    if e < |xs| {
      WireElement(xs, size, e);
      HtonReverses(xs[e]);
    }
  }

  /** In particular integers that fit their type keep their values. */
  lemma SentIntegersReadBack(vals: seq<int>, size: nat, e: nat)
    requires size > 0 && e < |vals| && forall i :: 0 <= i < |vals| ==> InRange(vals[i], size)
    ensures var xs := seq(|vals|, i requires 0 <= i < |vals| => SignedImage(vals[i], size));
            0 <= e * size && e * size + size <= |Wire(xs)| && Signed(Element(Wire(xs), 0, size, size, e)) == vals[e]
  {
    var xs := seq(|vals|, i requires 0 <= i < |vals| => SignedImage(vals[i], size));
    SentReadsBack(xs, size, 0, e);
    SignedInverse(vals[e], size);
  }

  lemma WireShape(n: nat, size: nat, nelm: nat)
    requires size > 0
    ensures LargestShape(n * size, 0, size, 0, nelm, Min(nelm, n))
  {
    forall j: nat
      ensures ShapeFits(n * size, 0, size, 0, j) <==> j <= n
    {
      if j <= n { MulLe(j, n, size); } else { MulLe(n + 1, j, size); }
    }
  }
}

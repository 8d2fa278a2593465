/** hton and ntoh of devcommon.h on a little-endian host: what they do to a value, and to
    the bytes it has in memory. */
module HostOrder {
  import opened Framing

  function Pow256(n: nat): (r: nat)
    ensures r > 0
  {
    if n == 0 then 1 else 0x100 * Pow256(n - 1)
  }

  /** The bytes of v in memory, lowest first. */
  function Image(v: nat, n: nat): (r: seq<byte>)
    ensures |r| == n
  {
    if n == 0 then [] else [v % 0x100] + Image(v / 0x100, n - 1)
  }

  function Value(b: seq<byte>): (r: nat)
    ensures r < Pow256(|b|)
  {
    if b == [] then 0 else b[0] + 0x100 * Value(b[1..])
  }

  lemma {:induction false} ValueOfImage(v: nat, n: nat)
    requires v < Pow256(n)
    ensures Value(Image(v, n)) == v
  {
    if n > 0 {
      ValueOfImage(v / 0x100, n - 1);
      assert Image(v, n)[1..] == Image(v / 0x100, n - 1);
    }
  }

  lemma {:induction false} ImageOfValue(b: seq<byte>)
    ensures Image(Value(b), |b|) == b
  {
    if b != [] {
      var t, v := b[1..], Value(b);
      ImageOfValue(t);
      assert v == b[0] + 0x100 * Value(t);
      assert v % 0x100 == b[0] && v / 0x100 == Value(t);
      assert Image(v, |b|) == [b[0]] + Image(Value(t), |t|);
      assert b == [b[0]] + t;
    }
  }

  function Reverse<T>(b: seq<T>): (r: seq<T>)
    ensures |r| == |b|
  {
    seq(|b|, i requires 0 <= i < |b| => b[|b| - 1 - i])
  }

  lemma ReverseTwice<T>(b: seq<T>)
    ensures Reverse(Reverse(b)) == b
  {
  }

  // ----- nswap -----

  /** htons and htonl: the value whose image is reversed. */
  function SwapSmall(v: nat, n: nat): (r: nat)
    ensures r < Pow256(n)
  {
    Value(Reverse(Image(v, n)))
  }

  const TWO32 := 0x1_0000_0000

  /** nswap<1>, <2> and <4> are one call; nswap<8> swaps the halves and each half. */
  function Swap(v: nat, n: nat): nat {
    if n == 1 then v % 0x100
    else if n == 8 then SwapSmall(v % TWO32, 4) * TWO32 + SwapSmall(v / TWO32 % TWO32, 4)
    else SwapSmall(v, n)
  }

  lemma LowestByte(lo: nat, q: nat)
    ensures (lo + 0x100 * q) % 0x100 == lo % 0x100 && (lo + 0x100 * q) / 0x100 == lo / 0x100 + q
  {
  }

  lemma ImageStep(v: nat, n: nat)
    ensures Image(v, n + 1) == [v % 0x100] + Image(v / 0x100, n)
    ensures Pow256(n + 1) == 0x100 * Pow256(n)
    ensures Image(v, 0) == [] && Pow256(0) == 1
  {
  }

  lemma {:induction false} ImageSplit(lo: nat, hi: nat, m: nat, n: nat)
    requires lo < Pow256(m)
    ensures Image(lo + Pow256(m) * hi, m + n) == Image(lo, m) + Image(hi, n)
  {
    hide Image, Pow256;
    if m == 0 {
      ImageStep(lo, 0);
    } else {
      ImageStep(lo, m - 1);
      var q := Pow256(m - 1) * hi;
      var v := lo + 0x100 * q;
      ScaleUp(Pow256(m - 1), hi);
      LowestByte(lo, q);
      ImageStep(v, m + n - 1);
      ImageSplit(lo / 0x100, hi, m - 1, n);
    }
  }

  lemma ScaleUp(p: nat, hi: nat)
    ensures 0x100 * p * hi == 0x100 * (p * hi)
  {
  }

  lemma Pow256Values()
    ensures Pow256(1) == 0x100 && Pow256(2) == 0x1_0000 && Pow256(4) == TWO32 && Pow256(8) == TWO32 * TWO32
  {
    assert Pow256(2) == 0x100 * Pow256(1) && Pow256(4) == 0x100 * Pow256(3) && Pow256(3) == 0x100 * Pow256(2);
    assert Pow256(8) == 0x100 * Pow256(7) && Pow256(7) == 0x100 * Pow256(6)
        && Pow256(6) == 0x100 * Pow256(5) && Pow256(5) == 0x100 * Pow256(4);
  }

  /** The 64-bit swap through two 32-bit ones reverses all eight bytes, as the others reverse
      theirs. */
  lemma SwapReversesImage(v: nat, n: nat)
    requires v < Pow256(n)
    ensures Image(Swap(v, n), n) == Reverse(Image(v, n))
  {
    hide Image, Value;
    if n == 1 {
      SwapOne(v);
    } else if n == 8 {
      SwapEight(v);
    } else {
      ImageOfValue(Reverse(Image(v, n)));
    }
  }

  lemma SwapEight(v: nat)
    requires v < Pow256(8)
    ensures Image(Swap(v, 8), 8) == Reverse(Image(v, 8))
  {
    hide Image, Reverse, SwapSmall, Pow256;
    Pow256Values();
    var l, h := v % TWO32, v / TWO32;
    assert v == l + TWO32 * h && h % TWO32 == h;
    SwapTwoHalves(l, h);
  }

  lemma SwapTwoHalves(l: nat, h: nat)
    requires l < TWO32 && h < TWO32
    ensures Image(SwapSmall(l, 4) * TWO32 + SwapSmall(h, 4), 8) == Reverse(Image(l + TWO32 * h, 8))
  {
    hide Image, Value;
    Pow256Values();
    ImageSplit(l, h, 4, 4);
    ImageSplit(SwapSmall(h, 4), SwapSmall(l, 4), 4, 4);
    ImageOfValue(Reverse(Image(l, 4)));
    ImageOfValue(Reverse(Image(h, 4)));
    assert Reverse(Image(l, 4) + Image(h, 4)) == Reverse(Image(h, 4)) + Reverse(Image(l, 4));
  }

  lemma SwapOne(v: nat)
    requires v < 0x100
    ensures Image(v, 1) == Reverse(Image(v, 1))
  {
  }

  /** hton, and ntoh, which is the same, on a value held in memory. */
  function Hton(mem: seq<byte>): (r: seq<byte>)
    ensures |r| == |mem|
  {
    Image(Swap(Value(mem), |mem|), |mem|)
  }

  /** ntoh(hton(x)) == x, and what is sent is the value highest byte first. */
  lemma HtonReverses(mem: seq<byte>)
    ensures Hton(mem) == Reverse(mem) && Hton(Hton(mem)) == mem
  {
    SwapReversesImage(Value(mem), |mem|);
    ImageOfValue(mem);
    var r := Reverse(mem);
    SwapReversesImage(Value(r), |r|);
    ImageOfValue(r);
    ReverseTwice(mem);
  }

  /** The big-endian words of the header are what hton makes of the host's, and the other way
      round. */
  lemma NetworkWords(x: u32, y: u16)
    ensures BE32(x) == Hton(Image(x, 4)) && Val32(BE32(x)) == Value(Hton(BE32(x)))
    ensures BE16(y) == Hton(Image(y, 2)) && Val16(BE16(y)) == Value(Hton(BE16(y)))
  {
    hide Hton, Value, Image, BE32, Val32;
    Image32(x);
    Image16(y);
    HtonReverses(Image(x, 4));
    HtonReverses(Image(y, 2));
    Pow256Values();
    ValueOfImage(x, 4);
    ValueOfImage(y, 2);
    Big32Inverse(x, BE32(x));
    Big16Inverse(y, BE16(y));
  }

  lemma Image16(y: u16)
    ensures Reverse(Image(y, 2)) == BE16(y)
  {
    assert Image(y, 2) == [y % 0x100] + Image(y / 0x100, 1);
    assert Image(y / 0x100, 1) == [y / 0x100];
  }

  lemma Image32(x: u32)
    ensures Reverse(Image(x, 4)) == BE32(x)
  {
    var lo, hi := x % 0x1_0000, x / 0x1_0000;
    Pow256Values();
    assert x == lo + 0x1_0000 * hi;
    ImageSplit(lo, hi, 2, 2);
    Image16(lo);
    Image16(hi);
    assert Reverse(Image(lo, 2) + Image(hi, 2)) == Reverse(Image(hi, 2)) + Reverse(Image(lo, 2));
  }

  // ----- signed integers -----

  function Signed(mem: seq<byte>): int {
    var v, p := Value(mem), Pow256(|mem|);
    if 2 * v >= p then v - p else v
  }

  /** v is in the range of a signed integer of n bytes. */
  predicate InRange(v: int, n: nat) { -(Pow256(n) as int) <= 2 * v < Pow256(n) }

  function SignedImage(v: int, n: nat): (r: seq<byte>)
    requires InRange(v, n)
    ensures |r| == n
  {
    Image(if v < 0 then v + Pow256(n) else v, n)
  }

  lemma SignedInverse(v: int, n: nat)
    requires InRange(v, n)
    ensures Signed(SignedImage(v, n)) == v
  {
    ValueOfImage(if v < 0 then v + Pow256(n) else v, n);
  }
}

/** A byte sequence held in pieces: stream arrivals, and the strides of a dbuffer. */
module Chunks {
  function Min(a: int, b: int): int { if a < b then a else b }

  function Flatten<T>(ss: seq<seq<T>>): seq<T> {
    if ss == [] then [] else ss[0] + Flatten(ss[1..])
  }

  /** Where piece k starts in the flat sequence. */
  function Start<T>(ss: seq<seq<T>>, k: nat): nat
    requires k <= |ss|
  {
    if k == 0 then 0 else |ss[0]| + Start(ss[1..], k - 1)
  }

  lemma {:induction false} StartStep<T>(ss: seq<seq<T>>, k: nat)
    requires k < |ss|
    ensures Start(ss, k + 1) == Start(ss, k) + |ss[k]|
  {
    if k > 0 { StartStep(ss[1..], k - 1); }
  }

  lemma {:induction false} StartEnd<T>(ss: seq<seq<T>>)
    ensures Start(ss, |ss|) == |Flatten(ss)|
  {
    if ss != [] { StartEnd(ss[1..]); }
  }

  lemma {:induction false} StartBound<T>(ss: seq<seq<T>>, k: nat)
    requires k <= |ss|
    ensures Start(ss, k) <= |Flatten(ss)|
  {
    if k > 0 { StartBound(ss[1..], k - 1); }
  }

  /** Piece k is the slice of the flat sequence that begins at its start. */
  lemma {:induction false} PieceIsSlice<T>(ss: seq<seq<T>>, k: nat)
    requires k < |ss|
    ensures Start(ss, k) + |ss[k]| <= |Flatten(ss)|
    ensures Flatten(ss)[Start(ss, k)..Start(ss, k) + |ss[k]|] == ss[k]
  {
    if k > 0 {
      PieceIsSlice(ss[1..], k - 1);
      var s := Start(ss[1..], k - 1);
      assert Flatten(ss)[|ss[0]|..] == Flatten(ss[1..]);
      assert Flatten(ss)[|ss[0]| + s..|ss[0]| + s + |ss[k]|] == Flatten(ss[1..])[s..s + |ss[k]|];
    }
  }

  /** s with x written over it from position at. */
  function Blit<T>(s: seq<T>, at: nat, x: seq<T>): (r: seq<T>)
    requires at + |x| <= |s|
    ensures |r| == |s|
  {
    s[..at] + x + s[at + |x|..]
  }

  /** memcpy into memory of the caller's. */
  method WriteAt<T>(dest: array<T>, at: nat, piece: seq<T>)
    requires at + |piece| <= dest.Length
    modifies dest
    ensures dest[..] == Blit(old(dest[..]), at, piece)
  {
    forall i | 0 <= i < |piece| { dest[at + i] := piece[i]; }
  }

  lemma BlitNothing<T>(s: seq<T>, at: nat)
    requires at <= |s|
    ensures Blit(s, at, []) == s
  {
  }

  lemma BlitFront<T>(s: seq<T>, x: seq<T>)
    requires |x| <= |s|
    ensures Blit(s, 0, x)[..|x|] == x && Blit(s, 0, x)[|x|..] == s[|x|..]
  {
  }

  lemma BlitElsewhere<T>(s: seq<T>, at: nat, x: seq<T>)
    requires at + |x| <= |s|
    ensures Blit(s, at, x)[..at] == s[..at] && Blit(s, at, x)[at + |x|..] == s[at + |x|..]
  {
  }

  /** What a write leaves alone, and what it leaves behind. */
  lemma BlitSlices<T>(s: seq<T>, at: nat, x: seq<T>, lo: nat, hi: nat)
    requires at + |x| <= |s| && lo <= hi <= |s|
    ensures Blit(s, at, x)[at..at + |x|] == x
    ensures hi <= at || at + |x| <= lo ==> Blit(s, at, x)[lo..hi] == s[lo..hi]
  {
    var r, end := Blit(s, at, x), at + |x|;
    BlitElsewhere(s, at, x);
    if hi <= at {
      assert r[lo..hi] == r[..at][lo..hi] && s[lo..hi] == s[..at][lo..hi];
    } else if end <= lo {
      assert r[lo..hi] == r[end..][lo - end..hi - end] && s[lo..hi] == s[end..][lo - end..hi - end];
    }
  }

  lemma BlitTwice<T>(s: seq<T>, at: nat, x: seq<T>, y: seq<T>)
    requires at + |x| + |y| <= |s|
    ensures Blit(Blit(s, at, x), at + |x|, y) == Blit(s, at, x + y)
  {
    assert Blit(s, at, x)[..at + |x|] == s[..at] + x;
    assert Blit(s, at, x)[at + |x| + |y|..] == s[at + |x| + |y|..];
  }

  lemma BlitMore<T>(s: seq<T>, at: nat, src: seq<T>, p: nat, n: nat, m: nat, before: seq<T>, after: seq<T>)
    requires at + n + m <= |s| && p + n + m <= |src|
    requires before == Blit(s, at, src[p..p + n])
    requires after == Blit(before, at + n, src[p + n..p + n + m])
    ensures after == Blit(s, at, src[p..p + (n + m)])
  {
    BlitTwice(s, at, src[p..p + n], src[p + n..p + n + m]);
    assert src[p..p + n] + src[p + n..p + n + m] == src[p..p + (n + m)];
  }

  lemma BlitAfter<T>(a: seq<T>, s: seq<T>, at: nat, x: seq<T>)
    requires at + |x| <= |s|
    ensures Blit(a + s, |a| + at, x) == a + Blit(s, at, x)
  {
    assert (a + s)[..|a| + at] == a + s[..at];
    assert (a + s)[|a| + at + |x|..] == s[at + |x|..];
  }

  lemma BlitBefore<T>(s: seq<T>, b: seq<T>, at: nat, x: seq<T>)
    requires at + |x| <= |s|
    ensures Blit(s + b, at, x) == Blit(s, at, x) + b
  {
    assert (s + b)[..at] == s[..at];
    assert (s + b)[at + |x|..] == s[at + |x|..] + b;
  }

  /** Writing over part of piece k writes over the same part of the flat sequence. */
  lemma {:induction false} BlitPiece<T>(ss: seq<seq<T>>, k: nat, off: nat, x: seq<T>)
    requires k < |ss| && off + |x| <= |ss[k]|
    ensures var p := Start(ss, k) + off;
            p + |x| <= |Flatten(ss)| &&
            Flatten(ss[k := Blit(ss[k], off, x)]) == Blit(Flatten(ss), p, x)
  {
    PieceIsSlice(ss, k);
    if k == 0 {
      assert ss[0 := Blit(ss[0], off, x)][1..] == ss[1..];
      BlitBefore(ss[0], Flatten(ss[1..]), off, x);
    } else {
      BlitPiece(ss[1..], k - 1, off, x);
      assert ss[k := Blit(ss[k], off, x)][1..] == ss[1..][k - 1 := Blit(ss[k], off, x)];
      BlitAfter(ss[0], Flatten(ss[1..]), Start(ss[1..], k - 1) + off, x);
    }
  }

  predicate SameShape<T>(ss: seq<seq<T>>, tt: seq<seq<T>>) {
    |ss| == |tt| && forall i :: 0 <= i < |ss| ==> |ss[i]| == |tt[i]|
  }

  lemma {:induction false} StartSameShape<T>(ss: seq<seq<T>>, tt: seq<seq<T>>, k: nat)
    requires SameShape(ss, tt)
    requires k <= |ss|
    ensures Start(ss, k) == Start(tt, k)
  {
    if k > 0 { StartSameShape(ss[1..], tt[1..], k - 1); }
  }

  lemma {:induction false} FlattenAppend<T>(a: seq<seq<T>>, b: seq<seq<T>>)
    ensures Flatten(a + b) == Flatten(a) + Flatten(b)
  {
    if a == [] {
      assert a + b == b;
    } else {
      calc {
        Flatten(a + b);
        { assert (a + b)[1..] == a[1..] + b; }
        a[0] + Flatten(a[1..] + b);
        { FlattenAppend(a[1..], b); }
        a[0] + (Flatten(a[1..]) + Flatten(b));
        Flatten(a) + Flatten(b);
      }
    }
  }

  lemma CutAt<T>(ss: seq<T>, k: nat)
    requires k < |ss|
    ensures ss == ss[..k] + [ss[k]] + ss[k + 1..]
  {
  }

  /** One piece in the flat sequence, and the flat sequence without it. */
  lemma FlattenWithout<T>(ss: seq<seq<T>>, k: nat)
    requires k < |ss|
    ensures Flatten(ss) == Flatten(ss[..k]) + ss[k] + Flatten(ss[k + 1..])
    ensures Flatten(ss[..k] + ss[k + 1..]) == Flatten(ss[..k]) + Flatten(ss[k + 1..])
  {
    hide Flatten;
    var a, x, b := ss[..k], ss[k], ss[k + 1..];
    calc {
      Flatten(ss);
      { CutAt(ss, k); }
      Flatten(a + [x] + b);
      { FlattenAppend(a + [x], b); }
      Flatten(a + [x]) + Flatten(b);
      { FlattenSnoc(a, x); }
      Flatten(a) + x + Flatten(b);
    }
    FlattenAppend(a, b);
  }

  lemma FlattenOne<T>(x: seq<T>)
    ensures Flatten([x]) == x
  {
    assert Flatten([x]) == x + [] == x;
  }

  lemma FlattenAtMostOne<T>(ss: seq<seq<T>>)
    requires |ss| <= 1
    ensures Flatten(ss) == if ss != [] then ss[0] else []
  {
    if ss != [] { FlattenOne(ss[0]); }
    assert ss != [] ==> ss == [ss[0]];
  }

  lemma FlattenSnoc<T>(a: seq<seq<T>>, x: seq<T>)
    ensures Flatten(a + [x]) == Flatten(a) + x
  {
    FlattenAppend(a, [x]);
    FlattenOne(x);
  }
}

/** wf_stats: mean, variance, minimum and maximum of the samples in a window, in one pass.
    Arithmetic is exact; the deviation is represented by its square. */
module WfStats {
  datatype Result =
    | NoSamples                        // READ alarm: an input is empty
    | NothingInWindow                  // CALC alarm
    | Stats(mean: real, variance: real, vmin: real, vmax: real, n: nat)

  // ----- the window -----

  /** What a sample's place is compared by: its time, or without times its index. */
  function Keys(time: seq<real>, len: nat): (r: seq<real>)
    requires |time| > 1 ==> len <= |time|
    ensures |r| == len
  {
    seq(len, i requires 0 <= i < len => if |time| > 1 then time[i] else i as real)
  }

  /** How many samples are looked at. */
  function Length(data: seq<real>, time: seq<real>): (n: nat)
    ensures n <= |data| && (|time| > 1 ==> n <= |time|)
  {
    if |time| > 1 && |time| < |data| then |time| else |data|
  }

  datatype Window = Window(start: real, width: real)

  /** A window of nothing at nothing stands for the default one. */
  function Effective(w: Window, time: seq<real>): Window {
    if w.start <= 0.0 && w.width <= 0.0 then
      Window(0.0, if |time| > 1 then time[|time| - 1] else |time| as real)
    else w
  }

  predicate Inside(w: Window, key: real) { w.start <= key < w.start + w.width }

  /** The samples in the window, in order. */
  function Selected(keys: seq<real>, data: seq<real>, w: Window): seq<real>
    requires |keys| <= |data|
    decreases |keys|
  {
    if keys == [] then []
    else
      var n := |keys| - 1;
      Selected(keys[..n], data, w) + (if Inside(w, keys[n]) then [data[n]] else [])
  }

  predicate NonDecreasing(keys: seq<real>) { forall i, j :: 0 <= i <= j < |keys| ==> keys[i] <= keys[j] }

  /** Where the loop breaks off: the first key not before the window and past its end. */
  predicate BreaksAt(keys: seq<real>, w: Window, k: nat) {
    && k <= |keys|
    && (forall i :: 0 <= i < k ==> keys[i] < w.start || keys[i] < w.start + w.width)
    && (k < |keys| ==> w.start <= keys[k] && w.start + w.width <= keys[k])
  }

  /** With keys that do not decrease, nothing behind the break lies in the window. */
  lemma {:induction false} BreakLosesNothing(keys: seq<real>, data: seq<real>, w: Window, k: nat)
    requires NonDecreasing(keys) && |keys| <= |data| && BreaksAt(keys, w, k)
    ensures Selected(keys[..k], data, w) == Selected(keys, data, w)
    decreases |keys|
  {
    if k == |keys| {
      assert keys[..k] == keys;
    } else {
      var n := |keys| - 1;
      BreakLosesNothing(keys[..n], data, w, k);
      assert keys[..n][..k] == keys[..k];
      assert keys[k] <= keys[n];
    }
  }

  lemma IndexKeysNonDecreasing(time: seq<real>, len: nat)
    requires |time| <= 1
    ensures NonDecreasing(Keys(time, len))
  {
  }

  lemma {:induction false} SelectedAll(keys: seq<real>, data: seq<real>, w: Window)
    requires |keys| <= |data|
    ensures |Selected(keys, data, w)| <= |keys|
    ensures |Selected(keys, data, w)| == |keys| <==> forall i :: 0 <= i < |keys| ==> Inside(w, keys[i])
    decreases |keys|
  {
    if keys != [] { SelectedAll(keys[..|keys| - 1], data, w); }
  }

  // ----- which samples a window takes -----

  /** The place of a sample: its time, if there is more than one time, else its index. */
  function Place(time: seq<real>, i: nat): real
    requires |time| > 1 ==> i < |time|
  {
    if |time| > 1 then time[i] else i as real
  }

  /** Where the samples end: with fewer times than samples, with the times. */
  function Used(data: seq<real>, time: seq<real>): nat {
    if |time| <= 1 || |data| <= |time| then |data| else |time|
  }

  predicate Lies(time: seq<real>, lo: real, hi: real, i: nat)
    requires |time| > 1 ==> i < |time|
  {
    lo <= Place(time, i) < hi
  }

  /** How many of the first i places lie from lo on and before hi. */
  function Rank(time: seq<real>, lo: real, hi: real, i: nat): nat
    requires |time| > 1 ==> i <= |time|
  {
    if i == 0 then 0 else Rank(time, lo, hi, i - 1) + (if Lies(time, lo, hi, i - 1) then 1 else 0)
  }

  /** xs is the samples whose places lie from lo on and before hi, in order. */
  ghost predicate Takes(xs: seq<real>, data: seq<real>, time: seq<real>, n: nat, lo: real, hi: real)
    requires n <= |data| && (|time| > 1 ==> n <= |time|)
  {
    && |xs| == Rank(time, lo, hi, n)
    && forall i :: 0 <= i < n && Lies(time, lo, hi, i) ==>
         Rank(time, lo, hi, i) < |xs| && xs[Rank(time, lo, hi, i)] == data[i]
  }

  lemma SelectedStep(data: seq<real>, time: seq<real>, n: nat, w: Window)
    requires 0 < n <= |data| && (|time| > 1 ==> n <= |time|)
    ensures Selected(Keys(time, n), data, w) ==
            Selected(Keys(time, n - 1), data, w) + (if Inside(w, Place(time, n - 1)) then [data[n - 1]] else [])
  {
    assert Keys(time, n)[..n - 1] == Keys(time, n - 1);
  }

  lemma {:induction false} SelectedTakes(data: seq<real>, time: seq<real>, n: nat, w: Window)
    requires n <= |data| && (|time| > 1 ==> n <= |time|)
    ensures Takes(Selected(Keys(time, n), data, w), data, time, n, w.start, w.start + w.width)
  {
    hide Keys, Selected, Place, Takes;
    if n == 0 {
      assert Selected(Keys(time, 0), data, w) == [] by { NoneSelected(data, time, w); }
      assert Takes([], data, time, 0, w.start, w.start + w.width) by { NoneTaken(data, time, w); }
    } else {
      SelectedTakes(data, time, n - 1, w);
      SelectedStep(data, time, n, w);
      TakesOneMore(Selected(Keys(time, n - 1), data, w), Selected(Keys(time, n), data, w), data, time, n, w);
    }
  }

  lemma TakesOneMore(xs: seq<real>, ys: seq<real>, data: seq<real>, time: seq<real>, n: nat, w: Window)
    requires 0 < n <= |data| && (|time| > 1 ==> n <= |time|)
    requires Takes(xs, data, time, n - 1, w.start, w.start + w.width)
    requires ys == xs + (if Inside(w, Place(time, n - 1)) then [data[n - 1]] else [])
    ensures Takes(ys, data, time, n, w.start, w.start + w.width)
  {
    var lo, hi := w.start, w.start + w.width;
    assert Inside(w, Place(time, n - 1)) <==> Lies(time, lo, hi, n - 1);
    hide Place, Lies, Inside, Rank;
    RankStep(time, lo, hi, n);
    forall i | 0 <= i < n && Lies(time, lo, hi, i)
      ensures Rank(time, lo, hi, i) < |ys| && ys[Rank(time, lo, hi, i)] == data[i]
    {
      assert i < n - 1 ==> Rank(time, lo, hi, i) < |xs|;
    }
  }

  lemma RankStep(time: seq<real>, lo: real, hi: real, n: nat)
    requires 0 < n && (|time| > 1 ==> n <= |time|)
    ensures Rank(time, lo, hi, n) == Rank(time, lo, hi, n - 1) + (if Lies(time, lo, hi, n - 1) then 1 else 0)
  {
  }

  lemma NoneTaken(data: seq<real>, time: seq<real>, w: Window)
    ensures Takes([], data, time, 0, w.start, w.start + w.width)
  {
  }

  lemma NoneSelected(data: seq<real>, time: seq<real>, w: Window)
    ensures Selected(Keys(time, 0), data, w) == []
  {
  }

  /** The samples the pass is about: for a window given by a positive start or width, those
      within these very numbers; else those from 0 to the last time or, without times, to the
      number of times. */
  lemma WindowTakes(data: seq<real>, time: seq<real>, start: real, width: real)
    ensures Length(data, time) == Used(data, time)
    ensures var xs := Selected(Keys(time, Used(data, time)), data, Effective(Window(start, width), time));
            && (start > 0.0 || width > 0.0 ==> Takes(xs, data, time, Used(data, time), start, start + width))
            && (start <= 0.0 && width <= 0.0 && |time| > 1 ==>
                  Takes(xs, data, time, Used(data, time), 0.0, time[|time| - 1]))
            && (start <= 0.0 && width <= 0.0 && |time| <= 1 ==>
                  Takes(xs, data, time, Used(data, time), 0.0, |time| as real))
  {
    SelectedTakes(data, time, Used(data, time), Effective(Window(start, width), time));
  }

  // ----- the statistics of a list -----

  function Sum(xs: seq<real>): real { if xs == [] then 0.0 else Sum(xs[..|xs| - 1]) + xs[|xs| - 1] }

  function SumSq(xs: seq<real>): real {
    if xs == [] then 0.0 else SumSq(xs[..|xs| - 1]) + xs[|xs| - 1] * xs[|xs| - 1]
  }

  function Least(xs: seq<real>): real
    requires xs != []
  {
    var x := xs[|xs| - 1];
    if |xs| == 1 then x else var m := Least(xs[..|xs| - 1]); if x < m then x else m
  }

  function Greatest(xs: seq<real>): real
    requires xs != []
  {
    var x := xs[|xs| - 1];
    if |xs| == 1 then x else var m := Greatest(xs[..|xs| - 1]); if x > m then x else m
  }

  function Summary(xs: seq<real>): Result {
    if xs == [] then NothingInWindow
    else
      var n := |xs| as real;
      var mean := Sum(xs) / n;
      Stats(mean, SumSq(xs) / n - mean * mean, Least(xs), Greatest(xs), |xs|)
  }

  predicate Within(xs: seq<real>, lo: real, hi: real) { forall i :: 0 <= i < |xs| ==> lo <= xs[i] <= hi }

  lemma {:induction false} ExtremesBound(xs: seq<real>)
    requires xs != []
    ensures Within(xs, Least(xs), Greatest(xs)) && Least(xs) in xs && Greatest(xs) in xs
  {
    var n := |xs| - 1;
    if n > 0 {
      ExtremesBound(xs[..n]);
      assert forall i :: 0 <= i < n ==> xs[i] == xs[..n][i];
      assert forall x :: x in xs[..n] ==> x in xs;
    }
  }

  lemma SquareNonNegative(x: real)
    ensures x * x >= 0.0
  {
  }

  lemma ProductNonNegative(x: real, y: real)
    requires x >= 0.0 && y >= 0.0
    ensures x * y >= 0.0
  {
  }

  /** The sum of the distances from a, and of their squares. */
  function Deviation(xs: seq<real>, a: real): real {
    if xs == [] then 0.0 else Deviation(xs[..|xs| - 1], a) + (xs[|xs| - 1] - a)
  }

  function Square(x: real): real { x * x }

  function SquareDeviation(xs: seq<real>, a: real): real {
    if xs == [] then 0.0 else SquareDeviation(xs[..|xs| - 1], a) + Square(xs[|xs| - 1] - a)
  }

  lemma {:induction false} DeviationExpands(xs: seq<real>, a: real)
    ensures Deviation(xs, a) == Sum(xs) - (|xs| as real) * a
  {
    if xs != [] {
      var n := |xs| - 1;
      DeviationExpands(xs[..n], a);
      assert (|xs| as real) * a == (n as real) * a + a;
    }
  }

  /** The sum of (x - a)^2 over n samples, from their sum s and the sum q of their squares. */
  function Expanded(q: real, s: real, n: real, a: real): real { q - 2.0 * (a * s) + n * (a * a) }

  lemma SquareStep(a: real, x: real, s: real, q: real, n: real)
    ensures Expanded(q, s, n, a) + Square(x - a) == Expanded(q + x * x, s + x, n + 1.0, a)
    ensures Square(x - a) >= 0.0
  {
    assert (x - a) * (x - a) == x * x - 2.0 * (a * x) + a * a;
    assert a * (s + x) == a * s + a * x;
    assert (n + 1.0) * (a * a) == n * (a * a) + a * a;
    SquareNonNegative(x - a);
  }

  lemma {:induction false} SquareDeviationExpands(xs: seq<real>, a: real)
    ensures SquareDeviation(xs, a) == Expanded(SumSq(xs), Sum(xs), |xs| as real, a)
    ensures SquareDeviation(xs, a) >= 0.0
  {
    hide Expanded, Square;
    if xs == [] {
      ExpandNothing(a);
    } else {
      var n, x := |xs| - 1, xs[|xs| - 1];
      SquareDeviationExpands(xs[..n], a);
      SquareStep(a, x, Sum(xs[..n]), SumSq(xs[..n]), n as real);
      assert SumSq(xs) == SumSq(xs[..n]) + x * x && Sum(xs) == Sum(xs[..n]) + x;
      assert |xs| as real == n as real + 1.0;
    }
  }

  lemma ExpandNothing(a: real)
    ensures Expanded(0.0, 0.0, 0.0, a) == 0.0
  {
  }

  /** The sum of (x - lo)(hi - x), expanded. */
  lemma {:induction false} ProductsBetween(xs: seq<real>, lo: real, hi: real)
    requires Within(xs, lo, hi)
    ensures (lo + hi) * Sum(xs) - SumSq(xs) - (|xs| as real) * (lo * hi) >= 0.0
  {
    if xs != [] {
      var n, x := |xs| - 1, xs[|xs| - 1];
      ProductsBetween(xs[..n], lo, hi);
      ProductNonNegative(x - lo, hi - x);
      assert (x - lo) * (hi - x) == (lo + hi) * x - x * x - lo * hi;
      assert (lo + hi) * Sum(xs) == (lo + hi) * Sum(xs[..n]) + (lo + hi) * x;
      assert (|xs| as real) * (lo * hi) == (n as real) * (lo * hi) + lo * hi;
    }
  }

  lemma {:induction false} SumBetween(xs: seq<real>, lo: real, hi: real)
    requires Within(xs, lo, hi)
    ensures (|xs| as real) * lo <= Sum(xs) <= (|xs| as real) * hi
  {
    if xs != [] {
      var n := |xs| - 1;
      SumBetween(xs[..n], lo, hi);
      assert (|xs| as real) * lo == (n as real) * lo + lo && (|xs| as real) * hi == (n as real) * hi + hi;
    }
  }

  lemma DivideBetween(s: real, n: real, lo: real, hi: real)
    requires n > 0.0 && n * lo <= s <= n * hi
    ensures lo <= s / n <= hi
  {
    var m := s / n;
    assert m * n == s;
  }

  lemma CancelPositive(n: real, x: real)
    requires n > 0.0 && n * x >= 0.0
    ensures x >= 0.0
  {
  }

  /** The mean lies between the extremes; the variance is not negative, so its root exists,
      and is at most (max - mean)(mean - min). */
  lemma SummaryBounds(xs: seq<real>)
    requires xs != []
    ensures var r := Summary(xs);
            && r.vmin <= r.mean <= r.vmax
            && 0.0 <= r.variance <= (r.vmax - r.mean) * (r.mean - r.vmin)
            && r.n == |xs| && r.vmin in xs && r.vmax in xs && Within(xs, r.vmin, r.vmax)
  {
    hide Sum, SumSq, Least, Greatest, Within;
    var lo, hi, n := Least(xs), Greatest(xs), |xs| as real;
    var s, q := Sum(xs), SumSq(xs);
    var mean, sq := s / n, q / n;
    ExtremesBound(xs);
    SumBetween(xs, lo, hi);
    DivideBetween(s, n, lo, hi);
    DivideBack(s, n);
    DivideBack(q, n);
    SquareDeviationExpands(xs, mean);
    VarianceFromBelow(n, mean, sq, s, q);
    ProductsBetween(xs, lo, hi);
    VarianceFromAbove(n, mean, sq, s, q, lo, hi);
  }

  /** The mean is where the distances cancel, and the variance the mean of their squares. */
  lemma SummaryIsMeanAndVariance(xs: seq<real>)
    requires xs != []
    ensures var r := Summary(xs);
            && Deviation(xs, r.mean) == 0.0
            && (|xs| as real) * r.variance == SquareDeviation(xs, r.mean)
  {
    hide Sum, SumSq, Least, Greatest, Deviation, SquareDeviation;
    var n, s, q := |xs| as real, Sum(xs), SumSq(xs);
    var mean := s / n;
    DivideBack(s, n);
    DivideBack(q, n);
    DeviationExpands(xs, mean);
    SquareDeviationExpands(xs, mean);
    SpreadAboutMean(n, mean, q / n, s, q);
  }

  lemma SpreadAboutMean(n: real, mean: real, sq: real, s: real, q: real)
    requires s == n * mean && q == n * sq
    ensures s - n * mean == 0.0
    ensures q - 2.0 * (mean * s) + n * (mean * mean) == n * (sq - mean * mean)
  {
    assert mean * s == n * (mean * mean);
    assert n * (sq - mean * mean) == n * sq - n * (mean * mean);
  }

  lemma DivideBack(s: real, n: real)
    requires n > 0.0
    ensures s == n * (s / n)
  {
  }

  lemma VarianceFromBelow(n: real, mean: real, sq: real, s: real, q: real)
    requires n > 0.0 && s == n * mean && q == n * sq
    requires q - 2.0 * (mean * s) + n * (mean * mean) >= 0.0
    ensures sq - mean * mean >= 0.0
  {
    assert mean * s == n * (mean * mean);
    assert n * (sq - mean * mean) == n * sq - n * (mean * mean);
    CancelPositive(n, sq - mean * mean);
  }

  lemma VarianceFromAbove(n: real, mean: real, sq: real, s: real, q: real, lo: real, hi: real)
    requires n > 0.0 && s == n * mean && q == n * sq
    requires (lo + hi) * s - q - n * (lo * hi) >= 0.0
    ensures sq - mean * mean <= (hi - mean) * (mean - lo)
  {
    var d := (lo + hi) * mean - sq - lo * hi;
    assert (lo + hi) * s == n * ((lo + hi) * mean);
    assert n * d == n * ((lo + hi) * mean) - n * sq - n * (lo * hi);
    CancelPositive(n, d);
    assert (hi - mean) * (mean - lo) == (lo + hi) * mean - mean * mean - lo * hi;
  }

  // ----- the pass -----

  lemma SelectedNext(keys: seq<real>, data: seq<real>, w: Window, i: nat)
    requires i < |keys| <= |data|
    ensures Selected(keys[..i + 1], data, w) ==
            Selected(keys[..i], data, w) + (if Inside(w, keys[i]) then [data[i]] else [])
  {
    assert keys[..i + 1][..i] == keys[..i];
  }

  lemma StatsNext(xs: seq<real>, x: real)
    ensures Sum(xs + [x]) == Sum(xs) + x && SumSq(xs + [x]) == SumSq(xs) + x * x
    ensures Least(xs + [x]) == if xs == [] || x < Least(xs) then x else Least(xs)
    ensures Greatest(xs + [x]) == if xs == [] || x > Greatest(xs) then x else Greatest(xs)
  {
    assert (xs + [x])[..|xs|] == xs;
  }

  /** One pass over the samples: skip those before the window, stop at the first past it (k). */
  method Compute(data: seq<real>, time: seq<real>, window: Window) returns (r: Result, ghost k: nat)
    ensures Length(data, time) == 0 <==> r.NoSamples?
    ensures var len, w := Length(data, time), Effective(window, time);
            len > 0 && NonDecreasing(Keys(time, len)) ==> r == Summary(Selected(Keys(time, len), data, w))
    ensures var len, w := Length(data, time), Effective(window, time);
            len > 0 ==> BreaksAt(Keys(time, len), w, k) && r == Summary(Selected(Keys(time, len)[..k], data, w))
  {
    hide Keys, Summary, Selected, Sum, SumSq, Least, Greatest, NonDecreasing;
    var len: nat := |data|;
    var usetime := |time| > 1;
    if usetime && |time| < |data| {
      len := |time|;
    }
    var start, width := window.start, window.width;
    if start <= 0.0 && width <= 0.0 {
      start := 0.0;
      width := if usetime then time[|time| - 1] else |time| as real;
    }
    if len == 0 {
      return NoSamples, 0;
    }
    ghost var keys, w := Keys(time, len), Window(start, width);
    var sum, sum2, vmin, vmax, n := 0.0, 0.0, 0.0, 0.0, 0;
    ghost var xs: seq<real> := [];
    NothingSelected(keys, data, w);
    var i := 0;
    while i < len
      invariant i <= len
      invariant forall j :: 0 <= j < i ==> keys[j] < w.start || keys[j] < w.start + w.width
      invariant xs == Selected(keys[..i], data, w)
      invariant n == |xs| && sum == Sum(xs) && sum2 == SumSq(xs)
      invariant n > 0 ==> vmin == Least(xs) && vmax == Greatest(xs)
    {
      var key := if usetime then time[i] else i as real;
      KeyOf(time, len, i);
      SelectedNext(keys, data, w, i);
      if key < start {
        i := i + 1;
        continue;
      }
      if key >= start + width {
        break;
      }
      StatsNext(xs, data[i]);
      if n == 0 {
        vmin, vmax := data[i], data[i];
      } else {
        if data[i] < vmin {
          vmin := data[i];
        }
        if data[i] > vmax {
          vmax := data[i];
        }
      }
      sum, sum2, n := sum + data[i], sum2 + data[i] * data[i], n + 1;
      xs := xs + [data[i]];
      i := i + 1;
    }
    k := i;
    assert BreaksAt(keys, w, k);
    if NonDecreasing(keys) { BreakLosesNothing(keys, data, w, k); }
    SummaryOf(xs);
    if n == 0 {
      r := NothingInWindow;
      return;
    }
    var mean, meansq := sum / n as real, sum2 / n as real;
    r := Stats(mean, meansq - mean * mean, vmin, vmax, n);
  }

  lemma KeyOf(time: seq<real>, len: nat, i: nat)
    requires i < len && (|time| > 1 ==> len <= |time|)
    ensures Keys(time, len)[i] == if |time| > 1 then time[i] else i as real
  {
  }

  lemma SummaryOf(xs: seq<real>)
    ensures xs == [] ==> Summary(xs) == NothingInWindow
    ensures xs != [] ==>
              var n := |xs| as real;
              var mean := Sum(xs) / n;
              Summary(xs) == Stats(mean, SumSq(xs) / n - mean * mean, Least(xs), Greatest(xs), |xs|)
  {
    hide Sum, SumSq, Least, Greatest;
  }

  lemma NothingSelected(keys: seq<real>, data: seq<real>, w: Window)
    requires |keys| <= |data|
    ensures Selected(keys[..0], data, w) == [] && Sum([]) == 0.0 && SumSq([]) == 0.0
  {
  }

  // ----- the default window -----

  /** With times, the default window takes in all samples exactly if no time is negative and
      all come before the last time given. */
  lemma DefaultWindowTakesAllIff(data: seq<real>, time: seq<real>)
    requires |time| > 1
    ensures var len, w := Length(data, time), Effective(Window(0.0, 0.0), time);
            |Selected(Keys(time, len), data, w)| == len <==>
            forall i :: 0 <= i < len ==> 0.0 <= time[i] < time[|time| - 1]
  {
    var len, w := Length(data, time), Effective(Window(0.0, 0.0), time);
    var keys := Keys(time, len);
    SelectedAll(keys, data, w);
    assert forall i :: 0 <= i < len ==> (Inside(w, keys[i]) <==> 0.0 <= time[i] < time[|time| - 1]);
  }

  /** So with as many times as samples the default window never takes in all of them. */
  lemma DefaultWindowDropsLast(data: seq<real>, time: seq<real>)
    requires 1 < |time| <= |data|
    ensures var len, w := Length(data, time), Effective(Window(0.0, 0.0), time);
            |Selected(Keys(time, len), data, w)| < len
  {
    var len, w := Length(data, time), Effective(Window(0.0, 0.0), time);
    SelectedAll(Keys(time, len), data, w);
    DefaultWindowTakesAllIff(data, time);
    assert !(time[len - 1] < time[|time| - 1]);
  }

  /** Without times it takes in all samples exactly if there are no more than |time|, which
      is then at most one. */
  lemma DefaultIndexWindowTakesAllIff(data: seq<real>, time: seq<real>)
    requires |time| <= 1
    ensures var w := Effective(Window(0.0, 0.0), time);
            |Selected(Keys(time, |data|), data, w)| == |data| <==> |data| <= |time|
  {
    var w, keys := Effective(Window(0.0, 0.0), time), Keys(time, |data|);
    SelectedAll(keys, data, w);
    if |data| > |time| { assert !Inside(w, keys[|time|]); }
  }
}

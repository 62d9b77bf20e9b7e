/** Values of a series gathered into blocks, level by level, and what the gathered values say about the raw samples. */
module SeriesValues {

  datatype Operation = Max | Min | Add | Average

  function DoArithmetic(op: Operation, a: int, b: int): int {
    match op
    case Max => if a >= b then a else b
    case Min => if a < b then a else b
    case Add => a + b
    case Average => a + b
  }

  /** Integer division truncates towards zero. */
  function Truncated(a: int, count: nat): int
    requires count > 0
  {
    if a >= 0 then a / count else -(-a / count)
  }

  function DivideOnAddition(op: Operation, a: int, count: nat): int
    requires count > 0
  {
    if op == Average then Truncated(a, count) else a
  }

  function Folded(op: Operation, xs: seq<int>): int
    requires xs != []
  {
    if |xs| == 1 then xs[0] else DoArithmetic(op, Folded(op, xs[..|xs| - 1]), xs[|xs| - 1])
  }

  /** What a full ring of values is condensed to. */
  function Condensed(op: Operation, xs: seq<int>): int
    requires xs != []
  {
    DivideOnAddition(op, Folded(op, xs), |xs|)
  }

  /** A cursor that goes back to 0 when it reaches k, after n steps, and how often it went back. */
  function Cursor(n: nat, k: nat): (r: nat)
    requires k > 0
    ensures r < k && r <= n
  {
    if n == 0 then 0 else
      var c := Cursor(n - 1, k);
      if c + 1 == k then 0 else c + 1
  }

  function Rounds(n: nat, k: nat): nat
    requires k > 0
  {
    if n == 0 then 0 else Rounds(n - 1, k) + (if Cursor(n, k) == 0 then 1 else 0)
  }

  /** The values of the next level: what `f` makes of each round of k values of this one. */
  function Blocks(f: seq<int> -> int, xs: seq<int>, k: nat): (r: seq<int>)
    requires k > 0
    ensures |r| == Rounds(|xs|, k)
  {
    if xs == [] then [] else
      var before := Blocks(f, xs[..|xs| - 1], k);
      if Cursor(|xs|, k) == 0 then
        RoundIsLong(|xs|, k);
        before + [f(xs[|xs| - k..])]
      else before
  }

  function Condenser(op: Operation): seq<int> -> int {
    (xs: seq<int>) => if xs == [] then 0 else Condensed(op, xs)
  }

  function Minutes(op: Operation, samples: seq<int>): seq<int> {
    Blocks(Condenser(op), samples, 60)
  }

  function Hours(op: Operation, samples: seq<int>): seq<int> {
    Blocks(Condenser(op), Minutes(op, samples), 60)
  }

  function Days(op: Operation, samples: seq<int>): seq<int> {
    Blocks(Condenser(op), Hours(op, samples), 24)
  }

  // ---------------------------------------------------------------------------------------------
  // Cursors are digits, and blocks cut a series into consecutive pieces

  lemma {:induction false} RoundIsLong(n: nat, k: nat)
    requires k > 0 && n > 0 && Cursor(n, k) == 0
    ensures n >= k
  {
    assert Cursor(n - 1, k) == k - 1;
  }

  lemma {:induction false} DigitsBy60(n: nat)
    ensures Cursor(n, 60) == n % 60 && Rounds(n, 60) == n / 60
  {
    if n > 0 { DigitsBy60(n - 1); }
  }

  lemma {:induction false} DigitsBy24(n: nat)
    ensures Cursor(n, 24) == n % 24 && Rounds(n, 24) == n / 24
  {
    if n > 0 { DigitsBy24(n - 1); }
  }

  lemma {:induction false} DigitsBy30(n: nat)
    ensures Cursor(n, 30) == n % 30
  {
    if n > 0 { DigitsBy30(n - 1); }
  }

  /** Within a round the cursor counts, and then the next round begins. */
  lemma {:induction false} RoundFrom(lo: nat, k: nat, d: nat)
    requires k > 0 && Cursor(lo, k) == 0 && d <= k
    ensures Cursor(lo + d, k) == (if d == k then 0 else d)
    ensures Rounds(lo + d, k) == Rounds(lo, k) + (if d == k then 1 else 0)
  {
    if d > 0 { RoundFrom(lo, k, d - 1); }
  }

  lemma BlocksNext(f: seq<int> -> int, xs: seq<int>, k: nat)
    requires k > 0 && xs != []
    ensures Cursor(|xs|, k) == 0 ==> |xs| >= k && Blocks(f, xs, k) == Blocks(f, xs[..|xs| - 1], k) + [f(xs[|xs| - k..])]
    ensures Cursor(|xs|, k) != 0 ==> Blocks(f, xs, k) == Blocks(f, xs[..|xs| - 1], k)
  {
    if Cursor(|xs|, k) == 0 { RoundIsLong(|xs|, k); }
  }

  lemma LastBlock(f: seq<int> -> int, xs: seq<int>, k: nat, lo: nat)
    requires k > 0 && Cursor(lo, k) == 0 && lo + k == |xs|
    ensures Rounds(lo, k) < |Blocks(f, xs, k)| && Blocks(f, xs, k)[Rounds(lo, k)] == f(xs[lo..])
  {
    RoundFrom(lo, k, k - 1);
    RoundFrom(lo, k, k);
    BlocksNext(f, xs, k);
  }

  /** The value of the next level for the round that begins at `lo`. */
  lemma {:induction false} BlockAt(f: seq<int> -> int, xs: seq<int>, k: nat, lo: nat)
    requires k > 0 && Cursor(lo, k) == 0 && lo + k <= |xs|
    ensures Rounds(lo, k) < |Blocks(f, xs, k)| && Blocks(f, xs, k)[Rounds(lo, k)] == f(xs[lo..lo + k])
    decreases |xs|
  {
    var n := |xs|;
    if n == lo + k {
      LastBlock(f, xs, k, lo);
      assert xs[lo..] == xs[lo..lo + k];
    } else {
      BlockAt(f, xs[..n - 1], k, lo);
      BlocksNext(f, xs, k);
      assert xs[..n - 1][lo..lo + k] == xs[lo..lo + k];
    }
  }

  /** The i-th value of the next level condenses the i-th 60 values of this one. */
  lemma BlockOf60(op: Operation, xs: seq<int>, i: nat)
    requires i < |Blocks(Condenser(op), xs, 60)|
    ensures 60 * i + 60 <= |xs| && Blocks(Condenser(op), xs, 60)[i] == Condensed(op, xs[60 * i..60 * i + 60])
  {
    DigitsBy60(|xs|);
    DigitsBy60(60 * i);
    BlockAt(Condenser(op), xs, 60, 60 * i);
  }

  lemma BlockOf24(op: Operation, xs: seq<int>, i: nat)
    requires i < |Blocks(Condenser(op), xs, 24)|
    ensures 24 * i + 24 <= |xs| && Blocks(Condenser(op), xs, 24)[i] == Condensed(op, xs[24 * i..24 * i + 24])
  {
    DigitsBy24(|xs|);
    DigitsBy24(24 * i);
    BlockAt(Condenser(op), xs, 24, 24 * i);
  }

  // ---------------------------------------------------------------------------------------------
  // Maximum and minimum

  /** `m` is the largest (or the smallest) of the values from `lo` to `hi`, and one of them. */
  predicate IsExtreme(op: Operation, m: int, xs: seq<int>, lo: nat, hi: nat)
    requires hi <= |xs|
  {
    && (exists j :: lo <= j < hi && xs[j] == m)
    && forall j :: lo <= j < hi ==> if op == Max then xs[j] <= m else m <= xs[j]
  }

  lemma {:induction false} FoldedExtreme(op: Operation, xs: seq<int>)
    requires (op == Max || op == Min) && xs != []
    ensures IsExtreme(op, Folded(op, xs), xs, 0, |xs|)
  {
    if |xs| > 1 {
      var init := xs[..|xs| - 1];
      FoldedExtreme(op, init);
      var j :| 0 <= j < |init| && init[j] == Folded(op, init);
      assert xs[j] == init[j];
      assert forall i :: 0 <= i < |init| ==> xs[i] == init[i];
    }
  }

  lemma ExtremeOfSlice(op: Operation, xs: seq<int>, lo: nat, hi: nat)
    requires (op == Max || op == Min) && lo < hi <= |xs|
    ensures IsExtreme(op, Condensed(op, xs[lo..hi]), xs, lo, hi)
  {
    var ys := xs[lo..hi];
    FoldedExtreme(op, ys);
    var j :| 0 <= j < |ys| && ys[j] == Folded(op, ys);
    assert xs[lo + j] == ys[j];
    forall i | lo <= i < hi ensures if op == Max then xs[i] <= Folded(op, ys) else Folded(op, ys) <= xs[i] {
      assert xs[i] == ys[i - lo];
    }
  }

  lemma ScaledOrder(w: nat, a: nat, b: nat)
    ensures a < b ==> w * a + w <= w * b
    ensures a <= b ==> w * a <= w * b
  {
    if a <= b {
      assert w * b == w * a + w * (b - a);
      if a < b { assert w * (b - a) == w + w * (b - a - 1); }
    }
  }

  /** The stretch of width w that index j is in. */
  lemma StretchOf(w: nat, lo: nat, hi: nat, j: nat) returns (i: nat)
    requires w > 0 && w * lo <= j < w * hi
    ensures lo <= i < hi && w * i <= j < w * i + w
  {
    i := j / w;
    assert j == w * i + j % w;
    ScaledOrder(w, i, lo);
    ScaledOrder(w, hi, i);
  }

  /** An extreme of extremes of consecutive stretches is the extreme of the whole. */
  lemma ExtremeOfExtremes(op: Operation, m: int, ys: seq<int>, lo: nat, hi: nat, xs: seq<int>, w: nat)
    requires w > 0 && hi <= |ys| && IsExtreme(op, m, ys, lo, hi) && w * hi <= |xs|
    requires forall i :: lo <= i < hi ==> StretchExtreme(op, ys, xs, w, i)
    ensures IsExtreme(op, m, xs, w * lo, w * hi)
  {
    var i :| lo <= i < hi && ys[i] == m;
    assert StretchExtreme(op, ys, xs, w, i);
    var j :| w * i <= j < w * i + w && xs[j] == m;
    ScaledOrder(w, lo, i);
    ScaledOrder(w, i, hi);
    forall j | w * lo <= j < w * hi ensures if op == Max then xs[j] <= m else m <= xs[j] {
      var i := StretchOf(w, lo, hi, j);
      assert StretchExtreme(op, ys, xs, w, i);
    }
  }

  /** Value i of `ys` is the extreme of stretch i of `xs`. */
  predicate StretchExtreme(op: Operation, ys: seq<int>, xs: seq<int>, w: nat, i: nat) {
    i < |ys| && w * i + w <= |xs| && IsExtreme(op, ys[i], xs, w * i, w * i + w)
  }

  /** Under Max and Min each minute is the extreme of its 60 samples, */
  lemma MinuteIsExtreme(op: Operation, samples: seq<int>, i: nat)
    requires (op == Max || op == Min) && i < |Minutes(op, samples)|
    ensures StretchExtreme(op, Minutes(op, samples), samples, 60, i)
  {
    BlockOf60(op, samples, i);
    ExtremeOfSlice(op, samples, 60 * i, 60 * i + 60);
  }

  /** each hour of its 3600 samples, */
  lemma HourIsExtreme(op: Operation, samples: seq<int>, i: nat)
    requires (op == Max || op == Min) && i < |Hours(op, samples)|
    ensures StretchExtreme(op, Hours(op, samples), samples, 3600, i)
  {
    var minutes := Minutes(op, samples);
    BlockOf60(op, minutes, i);
    ExtremeOfSlice(op, minutes, 60 * i, 60 * i + 60);
    DigitsBy60(|samples|);
    forall m | 60 * i <= m < 60 * i + 60 ensures StretchExtreme(op, minutes, samples, 60, m) {
      MinuteIsExtreme(op, samples, m);
    }
    ExtremeOfExtremes(op, Hours(op, samples)[i], minutes, 60 * i, 60 * i + 60, samples, 60);
  }

  /** and each day of its 86400 samples. */
  lemma DayIsExtreme(op: Operation, samples: seq<int>, i: nat)
    requires (op == Max || op == Min) && i < |Days(op, samples)|
    ensures StretchExtreme(op, Days(op, samples), samples, 86400, i)
  {
    var hours := Hours(op, samples);
    BlockOf24(op, hours, i);
    ExtremeOfSlice(op, hours, 24 * i, 24 * i + 24);
    DigitsBy60(|samples|);
    DigitsBy60(|Minutes(op, samples)|);
    forall h | 24 * i <= h < 24 * i + 24 ensures StretchExtreme(op, hours, samples, 3600, h) {
      HourIsExtreme(op, samples, h);
    }
    ExtremeOfExtremes(op, Days(op, samples)[i], hours, 24 * i, 24 * i + 24, samples, 3600);
  }

  // ---------------------------------------------------------------------------------------------
  // Sums and averages

  function Sum(xs: seq<int>, lo: nat, hi: nat): int
    requires hi <= |xs|
  {
    if lo >= hi then 0 else Sum(xs, lo, hi - 1) + xs[hi - 1]
  }

  lemma {:induction false} SumSplit(xs: seq<int>, a: nat, b: nat, c: nat)
    requires a <= b <= c <= |xs|
    ensures Sum(xs, a, c) == Sum(xs, a, b) + Sum(xs, b, c)
  {
    if b < c { SumSplit(xs, a, b, c - 1); }
  }

  lemma {:induction false} SumNonNegative(xs: seq<int>, lo: nat, hi: nat)
    requires hi <= |xs| && forall i :: 0 <= i < |xs| ==> xs[i] >= 0
    ensures Sum(xs, lo, hi) >= 0
  {
    if lo < hi { SumNonNegative(xs, lo, hi - 1); }
  }

  lemma {:induction false} FoldedIsSum(op: Operation, xs: seq<int>, lo: nat, hi: nat)
    requires (op == Add || op == Average) && lo < hi <= |xs|
    ensures Folded(op, xs[lo..hi]) == Sum(xs, lo, hi)
  {
    if lo + 1 == hi {
      assert Sum(xs, lo, lo) == 0;
    } else {
      FoldedIsSum(op, xs, lo, hi - 1);
      assert xs[lo..hi][..hi - lo - 1] == xs[lo..hi - 1];
    }
  }

  /** `scale` times value i of `ys` falls short of the sum of stretch i of `xs` by at most `gap`. */
  predicate Within(ys: seq<int>, xs: seq<int>, w: nat, scale: nat, gap: nat, i: nat) {
    i < |ys| && w * i + w <= |xs| && scale * ys[i] <= Sum(xs, w * i, w * i + w) <= scale * ys[i] + gap
  }

  /** Stretch i of `xs`, from pos(i) to pos(i + 1), adds up to something from lows[i] to highs[i]. */
  predicate Between(lows: seq<int>, highs: seq<int>, pos: nat -> nat, xs: seq<int>, i: nat)
    requires i < |lows| == |highs|
  {
    pos(i) <= pos(i + 1) <= |xs| && lows[i] <= Sum(xs, pos(i), pos(i + 1)) <= highs[i]
  }

  /** What each stretch keeps to, they keep to together. */
  lemma {:induction false} SumsBetween(lows: seq<int>, highs: seq<int>, pos: nat -> nat, xs: seq<int>, lo: nat, hi: nat)
    requires lo <= hi <= |lows| == |highs|
    requires forall i :: lo <= i < hi ==> Between(lows, highs, pos, xs, i)
    ensures lo < hi ==> pos(lo) <= pos(hi) <= |xs|
    ensures lo < hi ==> Sum(lows, lo, hi) <= Sum(xs, pos(lo), pos(hi)) <= Sum(highs, lo, hi)
  {
    if lo < hi {
      var m := hi - 1;
      SumsBetween(lows, highs, pos, xs, lo, m);
      assert Between(lows, highs, pos, xs, m);
      if lo < m {
        SumSplit(xs, pos(lo), pos(m), pos(hi));
      } else {
        assert Sum(lows, lo, lo) == 0 && Sum(highs, lo, lo) == 0;
      }
    }
  }

  function Scaled(a: int, b: int, ys: seq<int>): seq<int> {
    seq(|ys|, i requires 0 <= i < |ys| => a * ys[i] + b)
  }

  lemma {:induction false} SumScaled(a: int, b: int, ys: seq<int>, lo: nat, hi: nat)
    requires lo <= hi <= |ys|
    ensures Sum(Scaled(a, b, ys), lo, hi) == a * Sum(ys, lo, hi) + b * (hi - lo)
  {
    if lo < hi {
      SumScaled(a, b, ys, lo, hi - 1);
      assert a * (Sum(ys, lo, hi - 1) + ys[hi - 1]) == a * Sum(ys, lo, hi - 1) + a * ys[hi - 1];
      assert b * (hi - lo) == b * (hi - 1 - lo) + b;
    }
  }

  predicate NonNegative(xs: seq<int>) {
    forall i :: 0 <= i < |xs| ==> xs[i] >= 0
  }

  /** A condensed stretch, scaled up again, is the sum, or falls short of it by less than its length. */
  lemma CondensedWithin(op: Operation, xs: seq<int>, lo: nat, n: nat)
    requires op == Add || (op == Average && NonNegative(xs))
    requires n > 0 && lo + n <= |xs|
    ensures var c, sum := Condensed(op, xs[lo..lo + n]), Sum(xs, lo, lo + n);
            if op == Add then c == sum else c == sum / n && 0 <= n * c <= sum <= n * c + n - 1
  {
    FoldedIsSum(op, xs, lo, lo + n);
    if op == Average {
      SumNonNegative(xs, lo, lo + n);
      var sum := Sum(xs, lo, lo + n);
      assert sum == n * (sum / n) + sum % n;
    }
  }

  /** Under Add each minute is the sum of its 60 samples; under Average it is at most 59 short of it, scaled. */
  lemma MinuteWithin(op: Operation, samples: seq<int>, i: nat)
    requires (op == Add || (op == Average && NonNegative(samples))) && i < |Minutes(op, samples)|
    ensures Within(Minutes(op, samples), samples, 60, if op == Add then 1 else 60, if op == Add then 0 else 59, i)
    ensures op == Average ==> Minutes(op, samples)[i] >= 0
  {
    BlockOf60(op, samples, i);
    CondensedWithin(op, samples, 60 * i, 60);
  }

  lemma MinutesNonNegative(samples: seq<int>)
    requires NonNegative(samples)
    ensures NonNegative(Minutes(Average, samples))
  {
    forall i | 0 <= i < |Minutes(Average, samples)| ensures Minutes(Average, samples)[i] >= 0 {
      MinuteWithin(Average, samples, i);
    }
  }

  lemma SixtyMinutes(op: Operation, samples: seq<int>, i: nat)
    requires (op == Add || (op == Average && NonNegative(samples))) && 60 * i + 60 <= |Minutes(op, samples)|
    ensures 3600 * i + 3600 <= |samples|
    ensures var sum, total := Sum(Minutes(op, samples), 60 * i, 60 * i + 60), Sum(samples, 3600 * i, 3600 * i + 3600);
            if op == Add then total == sum else 60 * sum <= total <= 60 * sum + 3540
  {
    var minutes, lo, hi := Minutes(op, samples), 60 * i, 60 * i + 60;
    var lows := if op == Add then minutes else Scaled(60, 0, minutes);
    var highs := if op == Add then minutes else Scaled(60, 59, minutes);
    var pos: nat -> nat := m => 60 * m;
    forall m | lo <= m < hi ensures Between(lows, highs, pos, samples, m) { MinuteWithin(op, samples, m); }
    SumsBetween(lows, highs, pos, samples, lo, hi);
    SumScaled(60, 0, minutes, lo, hi);
    SumScaled(60, 59, minutes, lo, hi);
  }

  lemma HourWithin(op: Operation, samples: seq<int>, i: nat)
    requires (op == Add || (op == Average && NonNegative(samples))) && i < |Hours(op, samples)|
    ensures Within(Hours(op, samples), samples, 3600, if op == Add then 1 else 3600, if op == Add then 0 else 7080, i)
    ensures op == Average ==> Hours(op, samples)[i] >= 0
  {
    var minutes := Minutes(op, samples);
    BlockOf60(op, minutes, i);
    if op == Average { MinutesNonNegative(samples); }
    CondensedWithin(op, minutes, 60 * i, 60);
    SixtyMinutes(op, samples, i);
  }

  lemma HoursNonNegative(samples: seq<int>)
    requires NonNegative(samples)
    ensures NonNegative(Hours(Average, samples))
  {
    forall i | 0 <= i < |Hours(Average, samples)| ensures Hours(Average, samples)[i] >= 0 {
      HourWithin(Average, samples, i);
    }
  }

  lemma TwentyFourHours(op: Operation, samples: seq<int>, i: nat)
    requires (op == Add || (op == Average && NonNegative(samples))) && 24 * i + 24 <= |Hours(op, samples)|
    ensures 86400 * i + 86400 <= |samples|
    ensures var sum, total := Sum(Hours(op, samples), 24 * i, 24 * i + 24), Sum(samples, 86400 * i, 86400 * i + 86400);
            if op == Add then total == sum else 3600 * sum <= total <= 3600 * sum + 169920
  {
    var hours, lo, hi := Hours(op, samples), 24 * i, 24 * i + 24;
    var lows := if op == Add then hours else Scaled(3600, 0, hours);
    var highs := if op == Add then hours else Scaled(3600, 7080, hours);
    var pos: nat -> nat := h => 3600 * h;
    forall h | lo <= h < hi ensures Between(lows, highs, pos, samples, h) { HourWithin(op, samples, h); }
    SumsBetween(lows, highs, pos, samples, lo, hi);
    SumScaled(3600, 0, hours, lo, hi);
    SumScaled(3600, 7080, hours, lo, hi);
  }

  lemma DayWithin(op: Operation, samples: seq<int>, i: nat)
    requires (op == Add || (op == Average && NonNegative(samples))) && i < |Days(op, samples)|
    ensures Within(Days(op, samples), samples, 86400, if op == Add then 1 else 86400,
                   if op == Add then 0 else 252720, i)
  {
    var hours := Hours(op, samples);
    BlockOf24(op, hours, i);
    if op == Average { HoursNonNegative(samples); }
    CondensedWithin(op, hours, 24 * i, 24);
    TwentyFourHours(op, samples, i);
  }

  /** The true average of stretch i, rounded down. */
  function TrueAverage(samples: seq<int>, w: nat, i: nat): int
    requires w > 0 && w * i + w <= |samples|
  {
    Sum(samples, w * i, w * i + w) / w
  }

  /** Averages of non-negative samples: a minute is exact, */
  lemma MinuteAverage(samples: seq<int>, i: nat)
    requires NonNegative(samples) && i < |Minutes(Average, samples)|
    ensures 60 * i + 60 <= |samples| && Minutes(Average, samples)[i] == TrueAverage(samples, 60, i)
  {
    BlockOf60(Average, samples, i);
    CondensedWithin(Average, samples, 60 * i, 60);
  }

  /** an hour is at most 1 too small, */
  lemma HourAverage(samples: seq<int>, i: nat)
    requires NonNegative(samples) && i < |Hours(Average, samples)|
    ensures 3600 * i + 3600 <= |samples| && 0 <= TrueAverage(samples, 3600, i) - Hours(Average, samples)[i] <= 1
  {
    HourWithin(Average, samples, i);
  }

  /** and a day at most 2. */
  lemma DayAverage(samples: seq<int>, i: nat)
    requires NonNegative(samples) && i < |Days(Average, samples)|
    ensures 86400 * i + 86400 <= |samples| && 0 <= TrueAverage(samples, 86400, i) - Days(Average, samples)[i] <= 2
  {
    DayWithin(Average, samples, i);
  }

  // ---------------------------------------------------------------------------------------------
  // Both bounds are attained

  lemma {:induction false} SumConstant(xs: seq<int>, lo: nat, hi: nat, c: int)
    requires lo <= hi <= |xs| && forall i :: lo <= i < hi ==> xs[i] == c
    ensures Sum(xs, lo, hi) == c * (hi - lo)
  {
    if lo < hi {
      SumConstant(xs, lo, hi - 1, c);
      assert c * (hi - lo) == c * (hi - 1 - lo) + c;
    }
  }

  /** What the samples of minute m of an unlucky day add up to: each division loses as much as it can. */
  function MinuteSum(m: nat): nat {
    if m < 23 * 60 then (if m % 60 == 59 then 119 else 179) else (if m % 60 == 59 then 59 else 119)
  }

  function UnluckyDay(): seq<int> {
    seq(86400, j requires 0 <= j => if j % 60 == 0 then MinuteSum(j / 60) else 0)
  }

  lemma UnluckyMinute(m: nat)
    requires m < 1440
    ensures Sum(UnluckyDay(), 60 * m, 60 * m + 60) == MinuteSum(m)
  {
    var day := UnluckyDay();
    SumSplit(day, 60 * m, 60 * m + 1, 60 * m + 60);
    SumConstant(day, 60 * m + 1, 60 * m + 60, 0);
    assert Sum(day, 60 * m, 60 * m + 1) == Sum(day, 60 * m, 60 * m) + day[60 * m];
  }

  lemma UnluckyLengths()
    ensures |Minutes(Average, UnluckyDay())| == 1440 && |Hours(Average, UnluckyDay())| == 24
              && |Days(Average, UnluckyDay())| == 1
    ensures NonNegative(UnluckyDay())
  {
    DigitsBy60(86400);
    DigitsBy60(1440);
    DigitsBy24(24);
  }

  /** What the condensed minutes of hour h add up to, and what its samples do. */
  function HourOfMinutes(h: nat): nat { if h < 23 then 119 else 59 }

  function HourOfSamples(h: nat): nat { if h < 23 then 10680 else 7080 }

  lemma UnluckyMinutes(minutes: seq<int>, h: nat)
    requires h < 24 && |minutes| == 1440 && forall m :: 0 <= m < 1440 ==> minutes[m] == MinuteSum(m) / 60
    ensures Sum(minutes, 60 * h, 60 * h + 60) == HourOfMinutes(h)
  {
    var lo := 60 * h;
    SumSplit(minutes, lo, lo + 59, lo + 60);
    SumConstant(minutes, lo, lo + 59, if h < 23 then 2 else 1);
    assert Sum(minutes, lo + 59, lo + 60) == Sum(minutes, lo + 59, lo + 59) + minutes[lo + 59];
  }

  lemma UnluckyCondensed(m: nat)
    requires m < 1440
    ensures |Minutes(Average, UnluckyDay())| == 1440 && Minutes(Average, UnluckyDay())[m] == MinuteSum(m) / 60
  {
    var day := UnluckyDay();
    assert |Minutes(Average, day)| == 1440 && NonNegative(day) by { UnluckyLengths(); }
    assert Sum(day, 60 * m, 60 * m + 60) == MinuteSum(m) by { UnluckyMinute(m); }
    MinuteAverage(day, m);
  }

  lemma UnluckyHour(h: nat)
    requires h < 24
    ensures |Hours(Average, UnluckyDay())| == 24 && Hours(Average, UnluckyDay())[h] == (if h < 23 then 1 else 0)
  {
    var minutes := Minutes(Average, UnluckyDay());
    UnluckyLengths();
    forall m | 0 <= m < 1440 ensures minutes[m] == MinuteSum(m) / 60 { UnluckyCondensed(m); }
    UnluckyMinutes(minutes, h);
    MinutesNonNegative(UnluckyDay());
    BlockOf60(Average, minutes, h);
    CondensedWithin(Average, minutes, 60 * h, 60);
  }

  lemma UnluckySum(h: nat)
    requires h < 24
    ensures Sum(UnluckyDay(), 3600 * h, 3600 * h + 3600) == HourOfSamples(h)
  {
    var day, sums, lo := UnluckyDay(), seq(1440, m requires 0 <= m => MinuteSum(m)), 60 * h;
    var pos: nat -> nat := m => 60 * m;
    forall m | lo <= m < lo + 60 ensures Between(sums, sums, pos, day, m) { UnluckyMinute(m); }
    SumsBetween(sums, sums, pos, day, lo, lo + 60);
    SumSplit(sums, lo, lo + 59, lo + 60);
    SumConstant(sums, lo, lo + 59, if h < 23 then 179 else 119);
    assert Sum(sums, lo + 59, lo + 60) == Sum(sums, lo + 59, lo + 59) + sums[lo + 59];
  }

  lemma UnluckyTotal()
    ensures Sum(UnluckyDay(), 0, 86400) == 252720
  {
    var day, sums := UnluckyDay(), seq(24, h requires 0 <= h => HourOfSamples(h));
    var pos: nat -> nat := h => 3600 * h;
    forall h | 0 <= h < 24 ensures Between(sums, sums, pos, day, h) { UnluckySum(h); }
    SumsBetween(sums, sums, pos, day, 0, 24);
    SumConstant(sums, 0, 23, 10680);
    assert Sum(sums, 0, 24) == Sum(sums, 0, 23) + sums[23];
  }

  lemma UnluckyDayValue()
    ensures |Days(Average, UnluckyDay())| == 1 && Days(Average, UnluckyDay())[0] == 0
  {
    var day := UnluckyDay();
    var hours := Hours(Average, day);
    UnluckyLengths();
    forall h | 0 <= h < 24 ensures hours[h] == if h < 23 then 1 else 0 { UnluckyHour(h); }
    SumConstant(hours, 0, 23, 1);
    assert Sum(hours, 0, 24) == Sum(hours, 0, 23) + hours[23];
    HoursNonNegative(day);
    BlockOf24(Average, hours, 0);
    CondensedWithin(Average, hours, 0, 24);
  }

  /** On the unlucky day the first hour is 1 too small and the day is 2 too small. */
  lemma BoundsAttained()
    ensures var day := UnluckyDay();
            && NonNegative(day) && |Hours(Average, day)| == 24 && |Days(Average, day)| == 1
            && TrueAverage(day, 3600, 0) - Hours(Average, day)[0] == 1
            && TrueAverage(day, 86400, 0) - Days(Average, day)[0] == 2
  {
    UnluckyLengths();
    UnluckyTotal();
    UnluckyDayValue();
    UnluckySum(0);
    UnluckyHour(0);
  }
}

/** The four rings of a sampled series, kept in one array, each full round of one condensed into the next. */
module SeriesRings {
  import opened SeriesValues

  lemma {:induction false} FirstRound(n: nat, k: nat)
    requires n < k
    ensures Cursor(n, k) == n
  {
    if n > 0 { FirstRound(n - 1, k); }
  }

  /** The last of the first n values that was put in slot j of a ring of k slots. */
  function LastAt(n: nat, k: nat, j: nat): (r: nat)
    requires k > 0 && j < k && j < n
    ensures r < n && Cursor(r, k) == j && forall i :: r < i < n ==> Cursor(i, k) != j
  {
    FirstRound(j, k);
    if Cursor(n - 1, k) == j then n - 1 else LastAt(n - 1, k, j)
  }

  /** Slot j holds the last value put there, or 0 if there was none yet. */
  predicate SlotHolds(slots: seq<int>, xs: seq<int>, k: nat, j: nat)
    requires k > 0 && j < k && |slots| == k
  {
    slots[j] == if j < |xs| then xs[LastAt(|xs|, k, j)] else 0
  }

  /** k slots hold the last values of `xs`, each where the cursor was. */
  predicate RingHolds(slots: seq<int>, xs: seq<int>, k: nat)
    requires k > 0
  {
    |slots| == k && forall j :: 0 <= j < k ==> SlotHolds(slots, xs, k, j)
  }

  lemma RingNext(slots: seq<int>, xs: seq<int>, k: nat, x: int)
    requires k > 0 && RingHolds(slots, xs, k)
    ensures RingHolds(slots[Cursor(|xs|, k) := x], xs + [x], k)
  {
    var n, ys, next := |xs|, xs + [x], slots[Cursor(|xs|, k) := x];
    if n < k { FirstRound(n, k); }
    forall j | 0 <= j < k ensures SlotHolds(next, ys, k, j) {
      assert SlotHolds(slots, xs, k, j);
      if j < n && j != Cursor(n, k) {
        assert LastAt(n + 1, k, j) == LastAt(n, k, j);
      }
    }
  }

  /** After a full round the slots hold the last k values in order. */
  lemma {:induction false} LastRound(lo: nat, k: nat, d: nat, j: nat)
    requires k > 0 && Cursor(lo, k) == 0 && j < d <= k
    ensures j < lo + d && LastAt(lo + d, k, j) == lo + j
  {
    RoundFrom(lo, k, d - 1);
    if j < d - 1 { LastRound(lo, k, d - 1, j); }
  }

  lemma {:induction false} RoundStart(n: nat, k: nat)
    requires k > 0 && n >= k && Cursor(n, k) == 0
    ensures Cursor(n - k, k) == 0
  {
    CursorBack(n - 1, k, k - 1);
  }

  lemma {:induction false} CursorBack(n: nat, k: nat, d: nat)
    requires k > 0 && d <= Cursor(n, k)
    ensures d <= n && Cursor(n - d, k) == Cursor(n, k) - d
  {
    if d > 0 { CursorBack(n - 1, k, d - 1); }
  }

  lemma RingFull(slots: seq<int>, xs: seq<int>, k: nat)
    requires k > 0 && RingHolds(slots, xs, k) && |xs| > 0 && Cursor(|xs|, k) == 0
    ensures |xs| >= k && slots == xs[|xs| - k..]
  {
    RoundIsLong(|xs|, k);
    RoundStart(|xs|, k);
    forall j | 0 <= j < k ensures slots[j] == xs[|xs| - k..][j] {
      assert SlotHolds(slots, xs, k, j);
      LastRound(|xs| - k, k, k, j);
    }
  }

  /** The last 30 days; the rings from the hours on; the rings from the minutes on; all rings. */
  predicate DaysHold(slots: seq<int>, nday: nat, days: seq<int>) {
    nday == Cursor(|days|, 30) && RingHolds(slots, days, 30)
  }

  predicate HoursHold(op: Operation, slots: seq<int>, nhour: nat, nday: nat, hours: seq<int>) {
    && |slots| == 54 && nhour == Cursor(|hours|, 24) && RingHolds(slots[..24], hours, 24)
    && DaysHold(slots[24..], nday, Blocks(Condenser(op), hours, 24))
  }

  predicate MinutesHold(op: Operation, slots: seq<int>, nminute: nat, nhour: nat, nday: nat, minutes: seq<int>) {
    && |slots| == 114 && nminute == Cursor(|minutes|, 60) && RingHolds(slots[..60], minutes, 60)
    && HoursHold(op, slots[60..], nhour, nday, Blocks(Condenser(op), minutes, 60))
  }

  predicate SecondsHold(op: Operation, slots: seq<int>, nsecond: nat, nminute: nat, nhour: nat, nday: nat,
                        samples: seq<int>) {
    && |slots| == 174 && nsecond == Cursor(|samples|, 60) && RingHolds(slots[..60], samples, 60)
    && MinutesHold(op, slots[60..], nminute, nhour, nday, Blocks(Condenser(op), samples, 60))
  }

  lemma Slices(a: array<int>, lo: nat, k: nat)
    requires lo + k <= a.Length
    ensures a[lo..][..k] == a[lo..lo + k] && a[lo..][k..] == a[lo + k..]
  {
  }

  lemma PrefixSlices(a: array<int>, lo: nat, hi: nat)
    requires lo <= hi <= a.Length
    ensures a[..hi][..lo] == a[..lo] && a[..hi][lo..] == a[lo..hi]
  {
  }

  class SeriesSamples {
    const op: Operation
    var nsecond: nat
    var nminute: nat
    var nhour: nat
    var nday: nat
    const data: array<int>
    ghost var history: seq<int>

    ghost predicate Valid()
      reads this, data
    {
      SecondsHold(op, data[0..], nsecond, nminute, nhour, nday, history)
    }

    constructor (op: Operation)
      ensures Valid() && this.op == op && history == [] && fresh(data)
    {
      this.op := op;
      nsecond, nminute, nhour, nday := 0, 0, 0, 0;
      data := new int[174](_ => 0);
      history := [];
    }

    /** Condense the k values from index `lo` on. */
    method Condense(lo: nat, k: nat) returns (res: int)
      requires k > 0 && lo + k <= data.Length
      ensures res == Condensed(op, data[lo..lo + k])
    {
      res := data[lo];
      for i := 1 to k
        invariant res == Folded(op, data[lo..lo + i])
      {
        res := DoArithmetic(op, res, data[lo + i]);
        assert data[lo..lo + i + 1][..i] == data[lo..lo + i];
      }
      res := DivideOnAddition(op, res, k);
    }

    /** Put a value in the slot of a ring's cursor, move the cursor, and condense the ring if its round is complete. */
    method Put(lo: nat, k: nat, cursor: nat, value: int, ghost xs: seq<int>) returns (next: nat, res: int)
      requires k > 0 && lo + k <= data.Length && cursor == Cursor(|xs|, k) && RingHolds(data[lo..lo + k], xs, k)
      modifies data
      ensures next == Cursor(|xs| + 1, k) && RingHolds(data[lo..lo + k], xs + [value], k)
      ensures var before := Blocks(Condenser(op), xs, k);
              Blocks(Condenser(op), xs + [value], k) == if next == 0 then before + [res] else before
      ensures data[..lo] == old(data[..lo]) && data[lo + k..] == old(data[lo + k..])
    {
      RingNext(data[lo..lo + k], xs, k, value);
      data[lo + cursor] := value;
      assert data[lo..lo + k] == old(data[lo..lo + k])[cursor := value];
      ghost var ys := xs + [value];
      assert ys[..|xs|] == xs;
      BlocksNext(Condenser(op), ys, k);
      next, res := cursor + 1, 0;
      if next >= k {
        next := 0;
        RingFull(data[lo..lo + k], ys, k);
        res := Condense(lo, k);
      }
    }

    method AppendDay(value: int, ghost days: seq<int>)
      requires data.Length == 174 && DaysHold(data[144..], nday, days)
      modifies this`nday, data
      ensures DaysHold(data[144..], nday, days + [value]) && data[..144] == old(data[..144])
    {
      assert data[144..174] == data[144..];
      var res;
      nday, res := Put(144, 30, nday, value, days);
      assert data[144..174] == data[144..];
    }

    method AppendHour(value: int, ghost hours: seq<int>)
      requires data.Length == 174 && HoursHold(op, data[120..], nhour, nday, hours)
      modifies this`nhour, this`nday, data
      ensures HoursHold(op, data[120..], nhour, nday, hours + [value]) && data[..120] == old(data[..120])
    {
      Slices(data, 120, 24);
      var res;
      nhour, res := Put(120, 24, nhour, value, hours);
      ghost var slots := data[..144];
      if nhour == 0 {
        AppendDay(res, Blocks(Condenser(op), hours, 24));
      }
      assert data[..144] == slots;
      PrefixSlices(data, 120, 144);
      Slices(data, 120, 24);
    }

    method AppendMinute(value: int, ghost minutes: seq<int>)
      requires data.Length == 174 && MinutesHold(op, data[60..], nminute, nhour, nday, minutes)
      modifies this`nminute, this`nhour, this`nday, data
      ensures MinutesHold(op, data[60..], nminute, nhour, nday, minutes + [value]) && data[..60] == old(data[..60])
    {
      Slices(data, 60, 60);
      var res;
      nminute, res := Put(60, 60, nminute, value, minutes);
      ghost var slots := data[..120];
      PrefixSlices(data, 60, 120);
      if nminute == 0 {
        AppendHour(res, Blocks(Condenser(op), minutes, 60));
      }
      assert data[..120] == slots;
      PrefixSlices(data, 60, 120);
      Slices(data, 60, 60);
    }

    /** Append one sample: every ring of every level then holds what the whole history says. */
    method AppendSecond(value: int)
      requires Valid()
      modifies this, data
      ensures Valid() && history == old(history) + [value]
    {
      Slices(data, 0, 60);
      var res;
      nsecond, res := Put(0, 60, nsecond, value, history);
      ghost var slots := data[..60];
      PrefixSlices(data, 0, 60);
      if nsecond == 0 {
        AppendMinute(res, Blocks(Condenser(op), history, 60));
      }
      history := history + [value];
      assert data[..60] == slots;
      PrefixSlices(data, 0, 60);
      Slices(data, 0, 60);
    }
  }

  /** The four cursors are the mixed-radix digits of the number of samples. */
  lemma CursorsAreDigits(s: SeriesSamples)
    requires s.Valid()
    ensures var n := |s.history|;
            s.nsecond == n % 60 && s.nminute == n / 60 % 60 && s.nhour == n / 3600 % 24 && s.nday == n / 86400 % 30
  {
    var n := |s.history|;
    DigitsBy60(n);
    DigitsBy60(n / 60);
    DigitsBy24(n / 3600);
    DigitsBy30(n / 86400);
    assert n / 60 / 60 == n / 3600 && n / 3600 / 24 == n / 86400;
  }

  /** Every filled slot of the minutes, hours and days holds the value of the last stretch of samples put there. */
  lemma SlotsHoldLast(s: SeriesSamples, j: nat)
    requires s.Valid()
    ensures s.data.Length == 174
    ensures var minutes := Minutes(s.op, s.history);
            j < 60 && j < |minutes| ==> s.data[60 + j] == minutes[LastAt(|minutes|, 60, j)]
    ensures var hours := Hours(s.op, s.history);
            j < 24 && j < |hours| ==> s.data[120 + j] == hours[LastAt(|hours|, 24, j)]
    ensures var days := Days(s.op, s.history);
            j < 30 && j < |days| ==> s.data[144 + j] == days[LastAt(|days|, 30, j)]
  {
    var slots := s.data[0..];
    if j < 60 { assert SlotHolds(slots[60..][..60], Minutes(s.op, s.history), 60, j); }
    if j < 24 { assert SlotHolds(slots[60..][60..][..24], Hours(s.op, s.history), 24, j); }
    if j < 30 { assert SlotHolds(slots[60..][60..][24..], Days(s.op, s.history), 30, j); }
  }

  /** Under Max and Min every filled minute slot is the extreme of the 60 samples of its minute; */
  lemma MinuteSlotIsExtreme(s: SeriesSamples, j: nat)
    requires s.Valid() && (s.op == Max || s.op == Min) && j < 60 && j < |Minutes(s.op, s.history)|
    ensures var i := LastAt(|Minutes(s.op, s.history)|, 60, j);
            s.data.Length == 174 && 60 * i + 60 <= |s.history| &&
            IsExtreme(s.op, s.data[60 + j], s.history, 60 * i, 60 * i + 60)
  {
    SlotsHoldLast(s, j);
    MinuteIsExtreme(s.op, s.history, LastAt(|Minutes(s.op, s.history)|, 60, j));
  }

  /** every filled hour slot that of 3600 samples; */
  lemma HourSlotIsExtreme(s: SeriesSamples, j: nat)
    requires s.Valid() && (s.op == Max || s.op == Min) && j < 24 && j < |Hours(s.op, s.history)|
    ensures var i := LastAt(|Hours(s.op, s.history)|, 24, j);
            s.data.Length == 174 && 3600 * i + 3600 <= |s.history| &&
            IsExtreme(s.op, s.data[120 + j], s.history, 3600 * i, 3600 * i + 3600)
  {
    SlotsHoldLast(s, j);
    HourIsExtreme(s.op, s.history, LastAt(|Hours(s.op, s.history)|, 24, j));
  }

  /** and every filled day slot that of 86400 samples. */
  lemma DaySlotIsExtreme(s: SeriesSamples, j: nat)
    requires s.Valid() && (s.op == Max || s.op == Min) && j < 30 && j < |Days(s.op, s.history)|
    ensures var i := LastAt(|Days(s.op, s.history)|, 30, j);
            s.data.Length == 174 && 86400 * i + 86400 <= |s.history| &&
            IsExtreme(s.op, s.data[144 + j], s.history, 86400 * i, 86400 * i + 86400)
  {
    SlotsHoldLast(s, j);
    DayIsExtreme(s.op, s.history, LastAt(|Days(s.op, s.history)|, 30, j));
  }

  /** Under Average, of non-negative samples, a filled slot is the true average rounded down, less at most 0, 1 and
      2. */
  lemma SlotsAreAverages(s: SeriesSamples, j: nat)
    requires s.Valid() && s.op == Average && NonNegative(s.history)
    ensures s.data.Length == 174
    ensures var n := |Minutes(Average, s.history)|;
            j < 60 && j < n ==> var i := LastAt(n, 60, j);
              60 * i + 60 <= |s.history| && s.data[60 + j] == TrueAverage(s.history, 60, i)
    ensures var n := |Hours(Average, s.history)|;
            j < 24 && j < n ==> var i := LastAt(n, 24, j);
              3600 * i + 3600 <= |s.history| && 0 <= TrueAverage(s.history, 3600, i) - s.data[120 + j] <= 1
    ensures var n := |Days(Average, s.history)|;
            j < 30 && j < n ==> var i := LastAt(n, 30, j);
              86400 * i + 86400 <= |s.history| && 0 <= TrueAverage(s.history, 86400, i) - s.data[144 + j] <= 2
  {
    SlotsHoldLast(s, j);
    var minutes, hours, days := Minutes(Average, s.history), Hours(Average, s.history), Days(Average, s.history);
    if j < 60 && j < |minutes| { MinuteAverage(s.history, LastAt(|minutes|, 60, j)); }
    if j < 24 && j < |hours| { HourAverage(s.history, LastAt(|hours|, 24, j)); }
    if j < 30 && j < |days| { DayAverage(s.history, LastAt(|days|, 30, j)); }
  }
}

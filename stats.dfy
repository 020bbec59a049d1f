/**
 * Arithmetic shared by the three analytics classes: sums and means of a series,
 * its extremes, Java's Math.round, the first maximum and minimum that a strict
 * comparison in a left-to-right scan keeps, and the sums of deviation products
 * from which both Pearson correlations are built. Doubles are modelled as reals.
 */
module Stats {

  function Sum(s: seq<real>): real
  {
    if s == [] then 0.0 else Sum(s[..|s| - 1]) + s[|s| - 1]
  }

  /** The average of a non-empty series: the value that, taken |s| times, gives its sum. */
  function Mean(s: seq<real>): (m: real)
    requires s != []
    ensures m * |s| as real == Sum(s)
  {
    Sum(s) / |s| as real
  }

  function MinOf(s: seq<real>): (m: real)
    requires s != []
    ensures m in s
    ensures forall i :: 0 <= i < |s| ==> m <= s[i]
  {
    if |s| == 1 then s[0]
    else
      var m := MinOf(s[..|s| - 1]);
      assert forall i :: 0 <= i < |s| - 1 ==> s[..|s| - 1][i] == s[i];
      if s[|s| - 1] < m then s[|s| - 1] else m
  }

  function MaxOf(s: seq<real>): (m: real)
    requires s != []
    ensures m in s
    ensures forall i :: 0 <= i < |s| ==> s[i] <= m
  {
    if |s| == 1 then s[0]
    else
      var m := MaxOf(s[..|s| - 1]);
      assert forall i :: 0 <= i < |s| - 1 ==> s[..|s| - 1][i] == s[i];
      if s[|s| - 1] > m then s[|s| - 1] else m
  }

  /** A prefix one element longer sums to that element more. */
  lemma SumStep(s: seq<real>, i: nat)
    requires i < |s|
    ensures Sum(s[..i + 1]) == Sum(s[..i]) + s[i]
  {
    assert s[..i + 1][..i] == s[..i];
  }

  lemma {:induction false} SumBounds(s: seq<real>, lo: real, hi: real)
    requires forall i :: 0 <= i < |s| ==> lo <= s[i] <= hi
    ensures |s| as real * lo <= Sum(s) <= |s| as real * hi
  {
    if s != [] {
      SumBounds(s[..|s| - 1], lo, hi);
    }
  }

  /** A mean lies between the smallest and the largest value it averages. */
  lemma MeanBounds(s: seq<real>)
    requires s != []
    ensures MinOf(s) <= Mean(s) <= MaxOf(s)
  {
    MeanBetween(s, MinOf(s), MaxOf(s));
  }

  /** A mean lies within any bounds that every value lies within. */
  lemma MeanBetween(s: seq<real>, lo: real, hi: real)
    requires s != [] && forall i :: 0 <= i < |s| ==> lo <= s[i] <= hi
    ensures lo <= Mean(s) <= hi
  {
    SumBounds(s, lo, hi);
    DivideBounds(Sum(s), |s| as real, lo, hi);
  }

  lemma DivideBounds(sum: real, n: real, lo: real, hi: real)
    requires n > 0.0 && n * lo <= sum <= n * hi
    ensures lo <= sum / n <= hi
  {
    var q := sum / n;
    assert q * n == sum;
    assert q < lo ==> (lo - q) * n > 0.0;
    assert q > hi ==> (q - hi) * n > 0.0;
  }

  predicate IsConstant(s: seq<real>)
  {
    forall i, j :: 0 <= i < |s| && 0 <= j < |s| ==> s[i] == s[j]
  }

  /** The mean of a constant series is that constant. */
  lemma MeanOfConstant(s: seq<real>)
    requires s != [] && IsConstant(s)
    ensures Mean(s) == s[0]
  {
    SumBounds(s, s[0], s[0]);
  }

  /** Integers as doubles. */
  function Reals(xs: seq<int>): (r: seq<real>)
    ensures |r| == |xs|
    ensures forall i :: 0 <= i < |xs| ==> r[i] == xs[i] as real
  {
    seq(|xs|, i requires 0 <= i < |xs| => xs[i] as real)
  }

  /** The nearest integer to x, halves rounded up. */
  function RoundHalfUp(x: real): (r: int)
    ensures x - 0.5 < r as real <= x + 0.5
  {
    (x + 0.5).Floor
  }

  const LongMin: int := -0x8000_0000_0000_0000
  const LongMax: int := 0x7FFF_FFFF_FFFF_FFFF

  /** Java's Math.round(double): the nearest integer, halves rounded up, as a `long`;
      a value beyond the `long` range gives Long.MIN_VALUE or Long.MAX_VALUE. */
  function MathRound(x: real): (r: int)
    ensures LongMin <= r <= LongMax
    ensures LongMin <= RoundHalfUp(x) <= LongMax ==> r == RoundHalfUp(x)
    ensures RoundHalfUp(x) < LongMin ==> r == LongMin
    ensures RoundHalfUp(x) > LongMax ==> r == LongMax
  {
    var n := RoundHalfUp(x);
    if n < LongMin then LongMin else if n > LongMax then LongMax else n
  }

  /** Java's `(int)` cast of a `long`: the low 32 bits, read in two's complement. */
  function IntCast(v: int): (r: int)
    ensures -0x8000_0000 <= r < 0x8000_0000
    ensures (v - r) % 0x1_0000_0000 == 0
    ensures -0x8000_0000 <= v < 0x8000_0000 ==> r == v
  {
    var low := v % 0x1_0000_0000;
    if low < 0x8000_0000 then low else low - 0x1_0000_0000
  }

  /** (int) Math.round(x): equal to the rounded value whenever that fits in an int. */
  function IntRound(x: real): (r: int)
    ensures -0x8000_0000 <= r < 0x8000_0000
    ensures -0x8000_0000 <= RoundHalfUp(x) < 0x8000_0000 ==> r == RoundHalfUp(x)
  {
    IntCast(MathRound(x))
  }

  /** Rounding a value that lies between two integers stays between them. */
  lemma RoundWithin(x: real, lo: int, hi: int)
    requires lo as real <= x <= hi as real
    ensures lo <= RoundHalfUp(x) <= hi
  {
  }

  /** Rounding never reverses the order of two values. */
  lemma RoundMonotone(x: real, y: real)
    requires x <= y
    ensures RoundHalfUp(x) <= RoundHalfUp(y)
  {
    assert RoundHalfUp(x) as real < RoundHalfUp(y) as real + 1.0;
  }

  /** (int) Math.round stays between two ints that bound its argument. */
  lemma IntRoundWithin(x: real, lo: int, hi: int)
    requires -0x8000_0000 <= lo && hi < 0x8000_0000
    requires lo as real <= x <= hi as real
    ensures lo <= IntRound(x) <= hi
  {
    RoundWithin(x, lo, hi);
  }

  // ------------------------------------------------------------ first extremes

  /** i is the first position of a largest value of s. */
  predicate IsFirstMax(s: seq<real>, i: int)
  {
    && 0 <= i < |s|
    && (forall j :: 0 <= j < |s| ==> s[j] <= s[i])
    && (forall j :: 0 <= j < i ==> s[j] < s[i])
  }

  /** i is the first position of a smallest value of s. */
  predicate IsFirstMin(s: seq<real>, i: int)
  {
    && 0 <= i < |s|
    && (forall j :: 0 <= j < |s| ==> s[i] <= s[j])
    && (forall j :: 0 <= j < i ==> s[i] < s[j])
  }

  /** The index a left fold keeping the earlier element on ties ends with
      (Stream.max with a comparator). */
  function FirstMaxIndex(s: seq<real>): (i: nat)
    requires s != []
    ensures IsFirstMax(s, i)
  {
    if |s| == 1 then 0
    else
      var i := FirstMaxIndex(s[..|s| - 1]);
      assert forall j :: 0 <= j < |s| - 1 ==> s[..|s| - 1][j] == s[j];
      if s[i] >= s[|s| - 1] then i else |s| - 1
  }

  /** The same for Stream.min. */
  function FirstMinIndex(s: seq<real>): (i: nat)
    requires s != []
    ensures IsFirstMin(s, i)
  {
    if |s| == 1 then 0
    else
      var i := FirstMinIndex(s[..|s| - 1]);
      assert forall j :: 0 <= j < |s| - 1 ==> s[..|s| - 1][j] == s[j];
      if s[i] <= s[|s| - 1] then i else |s| - 1
  }

  /** A left-to-right scan keeping the earlier of equal values: one more element moves
      the first maximum to it only when it is strictly larger. */
  lemma FirstMaxStep(s: seq<real>, i: nat, bi: nat)
    requires i < |s|
    requires (i == 0 && bi == 0) || IsFirstMax(s[..i], bi)
    ensures IsFirstMax(s[..i + 1], if s[i] > s[bi] then i else bi)
  {
    assert forall j :: 0 <= j < i ==> s[..i][j] == s[j];
    assert forall j :: 0 <= j <= i ==> s[..i + 1][j] == s[j];
  }

  /** The same for the first minimum. */
  lemma FirstMinStep(s: seq<real>, i: nat, bi: nat)
    requires i < |s|
    requires (i == 0 && bi == 0) || IsFirstMin(s[..i], bi)
    ensures IsFirstMin(s[..i + 1], if s[i] < s[bi] then i else bi)
  {
    assert forall j :: 0 <= j < i ==> s[..i][j] == s[j];
    assert forall j :: 0 <= j <= i ==> s[..i + 1][j] == s[j];
  }

  /** A sequence has one first maximum and one first minimum. */
  lemma FirstExtremesUnique(s: seq<real>, i: int, j: int)
    ensures IsFirstMax(s, i) && IsFirstMax(s, j) ==> i == j
    ensures IsFirstMin(s, i) && IsFirstMin(s, j) ==> i == j
  {
    if (IsFirstMax(s, i) && IsFirstMax(s, j)) || (IsFirstMin(s, i) && IsFirstMin(s, j)) {
      assert s[i] == s[j];
    }
  }

  // ------------------------------------------------------------ correlation

  /** Sums of deviation products about the given means: num = Σ dx·dy, denX = Σ dx², denY = Σ dy². */
  datatype Moments = Moments(num: real, denX: real, denY: real)

  /** d * d, the square a deviation contributes. */
  function Sq(d: real): real { d * d }

  /** dx * dy, the product of two deviations. */
  function Cross(dx: real, dy: real): real { dx * dy }

  /** denX * denY, whose square root is the denominator of a Pearson correlation. */
  function Radicand(m: Moments): real { m.denX * m.denY }

  function CoMoments(xs: seq<real>, ys: seq<real>, mx: real, my: real): Moments
    requires |xs| == |ys|
  {
    if xs == [] then Moments(0.0, 0.0, 0.0)
    else
      var m := CoMoments(xs[..|xs| - 1], ys[..|ys| - 1], mx, my);
      var dx, dy := xs[|xs| - 1] - mx, ys[|ys| - 1] - my;
      Moments(m.num + Cross(dx, dy), m.denX + Sq(dx), m.denY + Sq(dy))
  }

  /** Extending both prefixes by one element adds that element's deviation products. */
  lemma CoMomentsStep(xs: seq<real>, ys: seq<real>, i: nat, mx: real, my: real)
    requires |xs| == |ys| && i < |xs|
    ensures var m := CoMoments(xs[..i], ys[..i], mx, my);
            var dx, dy := xs[i] - mx, ys[i] - my;
            CoMoments(xs[..i + 1], ys[..i + 1], mx, my) == Moments(m.num + Cross(dx, dy), m.denX + Sq(dx), m.denY + Sq(dy))
  {
    var p, q := xs[..i + 1], ys[..i + 1];
    assert |p| == i + 1 && |q| == i + 1;
    assert p[..|p| - 1] == xs[..i] && q[..|q| - 1] == ys[..i];
    assert p[|p| - 1] == xs[i] && q[|q| - 1] == ys[i];
  }

  /** The accumulation loop of a Pearson correlation over two arrays of equal length. */
  method DeviationSums(x: array<real>, y: array<real>, meanX: real, meanY: real) returns (m: Moments)
    requires x.Length == y.Length
    ensures m == CoMoments(x[..], y[..], meanX, meanY)
  {
    ghost var xs, ys := x[..], y[..];
    var num, denX, denY := 0.0, 0.0, 0.0;
    var i := 0;
    while i < x.Length
      invariant 0 <= i <= x.Length
      invariant Moments(num, denX, denY) == CoMoments(xs[..i], ys[..i], meanX, meanY)
    {
      CoMomentsStep(xs, ys, i, meanX, meanY);
      var dx := x[i] - meanX;
      var dy := y[i] - meanY;
      assert dx == xs[i] - meanX && dy == ys[i] - meanY;
      assert dx * dy == Cross(dx, dy) && dx * dx == Sq(dx) && dy * dy == Sq(dy);
      num := num + dx * dy;
      denX := denX + dx * dx;
      denY := denY + dy * dy;
      i := i + 1;
    }
    assert xs[..i] == xs && ys[..i] == ys;
    m := Moments(num, denX, denY);
  }

  /** The moments of two series about their own means. */
  function Deviations(xs: seq<real>, ys: seq<real>): Moments
    requires |xs| == |ys| && xs != []
  {
    CoMoments(xs, ys, Mean(xs), Mean(ys))
  }

  /** The means of two arrays, then the sums of their deviation products. */
  method ArrayDeviations(x: array<real>, y: array<real>) returns (m: Moments)
    requires x.Length == y.Length && x.Length > 0
    ensures m == Deviations(x[..], y[..])
  {
    var meanX := Mean(x[..]);
    var meanY := Mean(y[..]);
    m := DeviationSums(x, y, meanX, meanY);
  }

  /** The moments are symmetric in the two series. */
  lemma {:induction false} CoMomentsSymmetric(xs: seq<real>, ys: seq<real>, mx: real, my: real)
    requires |xs| == |ys|
    ensures var m := CoMoments(xs, ys, mx, my);
            CoMoments(ys, xs, my, mx) == Moments(m.num, m.denY, m.denX)
  {
    if xs != [] {
      CoMomentsSymmetric(xs[..|xs| - 1], ys[..|ys| - 1], mx, my);
      var dx, dy := xs[|xs| - 1] - mx, ys[|ys| - 1] - my;
      assert dx * dy == dy * dx;
    }
  }

  /** Swapping the series keeps the numerator and the radicand of their correlation. */
  lemma DeviationsSymmetric(xs: seq<real>, ys: seq<real>)
    requires |xs| == |ys| && xs != []
    ensures Deviations(ys, xs).num == Deviations(xs, ys).num
    ensures Radicand(Deviations(ys, xs)) == Radicand(Deviations(xs, ys))
  {
    var m := Deviations(xs, ys);
    CoMomentsSymmetric(xs, ys, Mean(xs), Mean(ys));
    assert Deviations(ys, xs) == Moments(m.num, m.denY, m.denX);
    RadicandSwap(m.num, m.denX, m.denY);
  }

  /** The radicand does not depend on the order of the two sums of squares. */
  lemma RadicandSwap(num: real, a: real, b: real)
    ensures Radicand(Moments(num, a, b)) == Radicand(Moments(num, b, a))
  {
  }

  /** Σ (x - c)² is never negative, and is zero exactly when every x equals c. */
  lemma {:induction false} SquaresZero(xs: seq<real>, ys: seq<real>, mx: real, my: real)
    requires |xs| == |ys|
    ensures CoMoments(xs, ys, mx, my).denX >= 0.0
    ensures CoMoments(xs, ys, mx, my).denX == 0.0 <==> forall i :: 0 <= i < |xs| ==> xs[i] == mx
  {
    if xs != [] {
      var p, q := xs[..|xs| - 1], ys[..|ys| - 1];
      SquaresZero(p, q, mx, my);
      var last := xs[|xs| - 1];
      SquareSign(last - mx);
      assert forall i :: 0 <= i < |p| ==> p[i] == xs[i];
    }
  }

  /** A square is positive except at zero. */
  lemma SquareSign(d: real)
    ensures Sq(d) >= 0.0
    ensures d != 0.0 ==> Sq(d) > 0.0
    ensures d == 0.0 ==> Sq(d) == 0.0
  {
    if d < 0.0 {
      calc { Sq(d); == (-d) * (-d); > { assert (-d) * (-d) > (-d) * 0.0; } 0.0; }
    } else if d > 0.0 {
      calc { Sq(d); == d * d; > { assert d * d > d * 0.0; } 0.0; }
    }
  }

  /** A product of two positive numbers is positive. */
  lemma PositiveProduct(a: real, b: real)
    requires a > 0.0 && b > 0.0
    ensures a * b > 0.0
  {
    assert a * b > a * 0.0;
  }

  /** A series deviates from its own mean nowhere exactly when it is constant. */
  lemma AllAtMeanIffConstant(xs: seq<real>)
    requires xs != []
    ensures (forall i :: 0 <= i < |xs| ==> xs[i] == Mean(xs)) <==> IsConstant(xs)
  {
    if IsConstant(xs) {
      MeanOfConstant(xs);
    }
  }

  /** The zero-variance guard of a Pearson correlation over a series' own mean holds
      exactly when one of the two series is constant. */
  lemma ZeroVarianceIffConstant(xs: seq<real>, ys: seq<real>)
    requires |xs| == |ys| && xs != []
    ensures var m := Deviations(xs, ys);
            && m.denX >= 0.0 && m.denY >= 0.0
            && (Radicand(m) == 0.0 <==> IsConstant(xs) || IsConstant(ys))
            && (Radicand(m) != 0.0 ==> Radicand(m) > 0.0)
  {
    var m := Deviations(xs, ys);
    SpreadZero(xs, ys);
    CoMomentsSymmetric(xs, ys, Mean(xs), Mean(ys));
    SpreadZero(ys, xs);
    if m.denX != 0.0 && m.denY != 0.0 {
      PositiveProduct(m.denX, m.denY);
    }
  }

  /** The squared deviations of the first series sum to zero exactly when it is constant. */
  lemma SpreadZero(xs: seq<real>, ys: seq<real>)
    requires |xs| == |ys| && xs != []
    ensures Deviations(xs, ys).denX >= 0.0
    ensures Deviations(xs, ys).denX == 0.0 <==> IsConstant(xs)
  {
    SquaresZero(xs, ys, Mean(xs), Mean(ys));
    AllAtMeanIffConstant(xs);
  }

  /**
   * The value of a correlation query. Square roots are not modelled: Ratio(n, d) stands
   * for n / sqrt(d) with d > 0. NaN is Double.NaN; Zero is the literal 0 a guard returns.
   */
  datatype Correlation = NaN | Zero | Ratio(numerator: real, radicand: real)
}

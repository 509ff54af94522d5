/** The row kernel of the matrix-vector products: eight accumulator lanes, two
    fused multiply-adds an iteration, a horizontal sum and a scalar tail. */
module Gemv {

  type Float = real
  type Fma = (Float, Float, Float) -> Float

  const LANES: nat := 8

  /** The vector part of a row: K & ~7. */
  function Vectored(k: nat): (r: nat)
    ensures r <= k < r + LANES && r % LANES == 0
  {
    k - k % LANES
  }

  /** One eight-wide fused multiply-add at column j. */
  function Fma8(fma: Fma, row: seq<Float>, x: seq<Float>, j: nat, sum: seq<Float>): (r: seq<Float>)
    requires |sum| == LANES && j + LANES <= |row| && |row| <= |x|
    ensures |r| == LANES
  {
    seq(LANES, l requires 0 <= l < LANES => fma(row[j + l], x[j + l], sum[l]))
  }

  function NoLanes(): (r: seq<Float>)
    ensures |r| == LANES
  {
    [0.0, 0.0, 0.0, 0.0, 0.0, 0.0, 0.0, 0.0]
  }

  /** The accumulator after the first n columns, eight at a time: what fixes the
      order of the operations of every lane. */
  function Accumulated(fma: Fma, row: seq<Float>, x: seq<Float>, n: nat): (r: seq<Float>)
    requires Whole(n) && n <= |row| <= |x|
    ensures |r| == LANES
  {
    if n == 0 then NoLanes() else Fma8(fma, row, x, n - LANES, Accumulated(fma, row, x, n - LANES))
  }

  /** n is a whole number of groups of eight. */
  predicate Whole(n: nat) {
    n % LANES == 0
  }

  lemma WholeNext(n: nat, k: nat)
    requires Whole(n) && n < Vectored(k)
    ensures Whole(n + LANES) && n + LANES <= Vectored(k) && (n + LANES < Vectored(k) ==> n + 2 * LANES <= Vectored(k))
  {
  }

  lemma AccumulatedNext(fma: Fma, row: seq<Float>, x: seq<Float>, n: nat)
    requires Whole(n) && n + LANES <= |row| <= |x|
    ensures Whole(n + LANES)
    ensures Accumulated(fma, row, x, n + LANES) == Fma8(fma, row, x, n, Accumulated(fma, row, x, n))
  {
    hide Fma8;
  }

  /** The plain loop, eight columns an iteration. */
  method PlainLanes(fma: Fma, row: seq<Float>, x: seq<Float>) returns (sum: seq<Float>, j: nat)
    requires |row| <= |x|
    ensures j == Vectored(|row|) && Whole(j) && sum == Accumulated(fma, row, x, j)
  {
    var k8 := Vectored(|row|);
    sum, j := NoLanes(), 0;
    assert Whole(j);
    hide Whole, Vectored, Accumulated, Fma8;
    while j < k8
      invariant 0 <= j <= k8 && Whole(j) && sum == Accumulated(fma, row, x, j)
    {
      WholeNext(j, |row|);
      AccumulatedNext(fma, row, x, j);
      sum := Fma8(fma, row, x, j, sum);
      j := j + 8;
    }
  }

  /** The unrolled loop: sixteen columns an iteration into one accumulator, then
      a single group of eight when one is left. For every row length and
      whatever the fused multiply-add rounds to, it performs the operations of
      the plain loop in the same order. */
  method UnrolledLanes(fma: Fma, row: seq<Float>, x: seq<Float>) returns (sum: seq<Float>, j: nat)
    requires |row| <= |x|
    ensures j == Vectored(|row|) && Whole(j) && sum == Accumulated(fma, row, x, j)
  {
    var k8 := Vectored(|row|);
    sum, j := NoLanes(), 0;
    assert Whole(j);
    hide Whole, Vectored, Accumulated, Fma8;
    while j + 8 < k8
      invariant 0 <= j <= k8 && Whole(j) && sum == Accumulated(fma, row, x, j)
      decreases k8 - j
    {
      WholeNext(j, |row|);
      AccumulatedNext(fma, row, x, j);
      WholeNext(j + 8, |row|);
      AccumulatedNext(fma, row, x, j + 8);
      sum := Fma8(fma, row, x, j, sum);
      sum := Fma8(fma, row, x, j + 8, sum);
      j := j + 16;
    }
    while j < k8
      invariant 0 <= j <= k8 && Whole(j) && sum == Accumulated(fma, row, x, j)
    {
      WholeNext(j, |row|);
      AccumulatedNext(fma, row, x, j);
      sum := Fma8(fma, row, x, j, sum);
      j := j + 8;
    }
  }

  /** High half plus low half, then two pairwise additions. */
  function HorizontalSum(sum: seq<Float>): Float
    requires |sum| == LANES
  {
    var s := seq(4, l requires 0 <= l < 4 => sum[4 + l] + sum[l]);
    (s[0] + s[1]) + (s[2] + s[3])
  }

  // ---------------------------------------------------------------- over the reals

  function Times(a: Float, b: Float): Float {
    a * b
  }

  /** Exact multiply-add. */
  function ExactFma(): Fma {
    (a: Float, b: Float, c: Float) => Times(a, b) + c
  }

  /** The dot product of the first n columns. */
  function Dot(row: seq<Float>, x: seq<Float>, n: nat): Float
    requires n <= |row| <= |x|
  {
    if n == 0 then 0.0 else Dot(row, x, n - 1) + Times(row[n - 1], x[n - 1])
  }

  /** The products of eight columns. */
  function EightProducts(row: seq<Float>, x: seq<Float>, n: nat): Float
    requires n + LANES <= |row| <= |x|
  {
    Times(row[n], x[n]) + Times(row[n + 1], x[n + 1]) + Times(row[n + 2], x[n + 2]) + Times(row[n + 3], x[n + 3])
      + Times(row[n + 4], x[n + 4]) + Times(row[n + 5], x[n + 5]) + Times(row[n + 6], x[n + 6])
      + Times(row[n + 7], x[n + 7])
  }

  lemma DotEight(row: seq<Float>, x: seq<Float>, n: nat)
    requires n + LANES <= |row| <= |x|
    ensures Dot(row, x, n + LANES) == Dot(row, x, n) + EightProducts(row, x, n)
  {
    hide Times;
    assert Dot(row, x, n + 2) == Dot(row, x, n) + Times(row[n], x[n]) + Times(row[n + 1], x[n + 1]);
    assert Dot(row, x, n + 4) == Dot(row, x, n + 2) + Times(row[n + 2], x[n + 2]) + Times(row[n + 3], x[n + 3]);
    assert Dot(row, x, n + 6) == Dot(row, x, n + 4) + Times(row[n + 4], x[n + 4]) + Times(row[n + 5], x[n + 5]);
    assert Dot(row, x, n + 8) == Dot(row, x, n + 6) + Times(row[n + 6], x[n + 6]) + Times(row[n + 7], x[n + 7]);
  }

  /** One eight-wide multiply-add adds its eight products to the sum of the lanes. */
  lemma LanesStep(row: seq<Float>, x: seq<Float>, n: nat, sum: seq<Float>)
    requires |sum| == LANES && n + LANES <= |row| <= |x|
    ensures HorizontalSum(Fma8(ExactFma(), row, x, n, sum)) == HorizontalSum(sum) + EightProducts(row, x, n)
  {
    hide Times;
  }

  lemma NothingSummed()
    ensures HorizontalSum(NoLanes()) == 0.0
  {
  }

  lemma WholeBefore(n: nat)
    requires Whole(n) && n > 0
    ensures n >= LANES && Whole(n - LANES)
  {
  }

  lemma StartsEmpty(fma: Fma, row: seq<Float>, x: seq<Float>)
    requires |row| <= |x|
    ensures Whole(0) && Accumulated(fma, row, x, 0) == NoLanes() && Dot(row, x, 0) == 0.0
  {
  }

  /** Splitting a sum over eight lanes and adding the lanes up loses nothing. */
  lemma {:induction false} LanesSumToDot(row: seq<Float>, x: seq<Float>, n: nat)
    requires Whole(n) && n <= |row| <= |x|
    ensures HorizontalSum(Accumulated(ExactFma(), row, x, n)) == Dot(row, x, n)
  {
    hide Times, Fma8, HorizontalSum, Accumulated, Dot, ExactFma, EightProducts, Whole, NoLanes;
    if n == 0 {
      NothingSummed();
      StartsEmpty(ExactFma(), row, x);
    } else {
      WholeBefore(n);
      var m := n - LANES;
      LanesSumToDot(row, x, m);
      AccumulatedNext(ExactFma(), row, x, m);
      LanesStep(row, x, m, Accumulated(ExactFma(), row, x, m));
      DotEight(row, x, m);
      assert m + LANES == n;
    }
  }

  /** The row kernel over the reals, vectorised or scalar: the dot product. */
  method RowDot(row: seq<Float>, x: seq<Float>, vectorised: bool) returns (dot: Float)
    requires |row| <= |x|
    ensures dot == Dot(row, x, |row|)
  {
    hide Times;
    dot := 0.0;
    var j := 0;
    if vectorised {
      var sum;
      sum, j := UnrolledLanes(ExactFma(), row, x);
      dot := HorizontalSum(sum);
      LanesSumToDot(row, x, j);
    }
    while j < |row|
      invariant 0 <= j <= |row| && dot == Dot(row, x, j)
    {
      dot := dot + Times(row[j], x[j]);
      j := j + 1;
    }
  }

  predicate HasRow(a: seq<Float>, k: nat, i: nat) {
    (i + 1) * k <= |a|
  }

  function RowOf(a: seq<Float>, k: nat, i: nat): (r: seq<Float>)
    requires HasRow(a, k, i)
    ensures |r| == k
  {
    assert i * k + k == (i + 1) * k;
    a[i * k..i * k + k]
  }

  lemma RowFits(a: seq<Float>, i: nat, m: nat, k: nat)
    requires i < m && |a| == m * k
    ensures HasRow(a, k, i)
  {
    assert (m - i - 1) * k >= 0;
  }

  /** y = alpha * A x + beta * y, row by row. */
  method GemvRows(a: seq<Float>, x: seq<Float>, y: array<Float>, m: nat, k: nat, alpha: Float, beta: Float,
                  vectorised: bool)
    requires |a| == m * k && k <= |x| && m <= y.Length
    modifies y
    ensures forall i: nat :: i < m ==> HasRow(a, k, i) && y[i] == alpha * Dot(RowOf(a, k, i), x, k) + beta * old(y[i])
    ensures forall i :: m <= i < y.Length ==> y[i] == old(y[i])
  {
    hide Dot, RowOf, HasRow;
    var i := 0;
    forall r: nat | r < m ensures HasRow(a, k, r) { RowFits(a, r, m, k); }
    while i < m
      invariant 0 <= i <= m
      invariant forall r: nat :: r < i ==> y[r] == alpha * Dot(RowOf(a, k, r), x, k) + beta * old(y[r])
      invariant forall r :: i <= r < y.Length ==> y[r] == old(y[r])
    {
      var dot := RowDot(RowOf(a, k, i), x, vectorised);
      y[i] := alpha * dot + beta * y[i];
      i := i + 1;
    }
  }
}

/** Exact-real arithmetic shared by the risk engine: the transcendental
    functions it calls (passed in, never defined), sums, means and
    rounding. */
module Numerics {

  /** The library functions the engine calls (numpy's log, exp, sqrt and
      scipy's normal CDF and quantile function). They are parameters of the
      model; whatever a proof needs of them is stated by the predicates
      below and required where it is used. */
  datatype Math = Math(
    ln: real -> real,
    exp: real -> real,
    sqrt: real -> real,
    normCdf: real -> real,
    normPpf: real -> real)

  /** `sqrt` returns the non-negative square root of every non-negative real. */
  ghost predicate IsSqrt(sqrt: real -> real) {
    forall x :: 0.0 <= x ==> 0.0 <= sqrt(x) && sqrt(x) * sqrt(x) == x
  }

  ghost predicate NonDecreasing(f: real -> real) {
    forall x, y :: x <= y ==> f(x) <= f(y)
  }

  /** Monotone on the open unit interval, the domain of a quantile function. */
  ghost predicate NonDecreasingOnUnit(f: real -> real) {
    forall x, y :: 0.0 < x <= y < 1.0 ==> f(x) <= f(y)
  }

  /** `cdf` undoes `ppf` on the open unit interval. */
  ghost predicate InvertsOnUnit(cdf: real -> real, ppf: real -> real) {
    forall x :: 0.0 < x < 1.0 ==> cdf(ppf(x)) == x
  }

  /** `exp` takes only positive values. */
  ghost predicate PositiveValued(f: real -> real) {
    forall x :: 0.0 < f(x)
  }

  /** A distribution function takes values in [0, 1]. */
  ghost predicate UnitValued(f: real -> real) {
    forall x :: 0.0 <= f(x) <= 1.0
  }

  /** Scaling by a non-negative factor keeps the order. */
  lemma ScaleMonotone(c: real, x: real, y: real)
    requires 0.0 <= c && x <= y
    ensures c * x <= c * y
  {
    assert c * y - c * x == c * (y - x);
  }

  lemma ProductPositive(x: real, y: real)
    requires 0.0 < x && 0.0 < y
    ensures 0.0 < x * y
  {
  }

  lemma ProductNonNegative(x: real, y: real)
    requires 0.0 <= x && 0.0 <= y
    ensures 0.0 <= x * y
  {
  }

  lemma PositiveTimesNegative(x: real, y: real)
    requires 0.0 < x && y < 0.0
    ensures x * y < 0.0
  {
  }

  /** A positive factor keeps the sign of the other factor. */
  lemma PositiveFactorSign(x: real, g: real)
    requires 0.0 < g
    ensures 0.0 < x * g <==> 0.0 < x
  {
    if 0.0 < x {
      ProductPositive(x, g);
    } else {
      ScaleMonotone(g, x, 0.0);
    }
  }

  lemma QuotientNonNegative(x: real, y: real)
    requires 0.0 <= x && 0.0 < y
    ensures 0.0 <= x / y
  {
  }

  /** x squared; a named function so that equal arguments give equal
      squares by congruence alone. */
  function Square(x: real): real {
    x * x
  }

  /** What `IsSqrt` says of one non-negative argument. */
  lemma SqrtOf(sqrt: real -> real, x: real)
    requires IsSqrt(sqrt) && 0.0 <= x
    ensures 0.0 <= sqrt(x) && Square(sqrt(x)) == x
  {
  }

  datatype Option<T> = None | Some(value: T)

  /** Every price is positive, as taking its logarithm demands. */
  ghost predicate Positive(prices: seq<real>) {
    forall j :: 0 <= j < |prices| ==> 0.0 < prices[j]
  }

  function Max(a: real, b: real): real {
    if a < b then b else a
  }

  function Min(a: int, b: int): int {
    if a < b then a else b
  }

  /** Sum of a sequence, adding the last element last. */
  function Sum(s: seq<real>): real {
    if |s| == 0 then 0.0 else Sum(s[..|s| - 1]) + s[|s| - 1]
  }

  function Mean(s: seq<real>): real
    requires |s| > 0
  {
    Sum(s) / (|s| as real)
  }

  /** Elementwise square, numpy's `x * x` on an array. */
  function Squares(s: seq<real>): (r: seq<real>)
    ensures |r| == |s|
    ensures forall i {:trigger r[i]} :: 0 <= i < |s| ==> r[i] == s[i] * s[i]
  {
    seq(|s|, i requires 0 <= i < |s| => s[i] * s[i])
  }

  /** numpy's `ceil` followed by `astype(int)`: the least integer not below x. */
  function Ceil(x: real): (r: int)
    ensures x <= r as real < x + 1.0
  {
    var f := x.Floor;
    if f as real == x then f else f + 1
  }

  /** Python's `int(x)`: truncation toward zero. */
  function Truncate(x: real): (r: int)
    ensures 0.0 <= x ==> r == x.Floor
    ensures 0.0 <= x ==> 0 <= r
  {
    if 0.0 <= x then x.Floor else -((-x).Floor)
  }

  lemma {:induction false} SumAppend(s: seq<real>, x: real)
    ensures Sum(s + [x]) == Sum(s) + x
  {
    assert (s + [x])[..|s|] == s;
  }

  lemma {:induction false} SumPrefixStep(s: seq<real>, k: nat)
    requires k < |s|
    ensures Sum(s[..k + 1]) == Sum(s[..k]) + s[k]
  {
    assert s[..k + 1] == s[..k] + [s[k]];
    SumAppend(s[..k], s[k]);
  }

  /** A sum of terms each at most b is at most |s| * b. */
  lemma {:induction false} SumAtMost(s: seq<real>, b: real)
    requires forall i :: 0 <= i < |s| ==> s[i] <= b
    ensures Sum(s) <= (|s| as real) * b
  {
    if |s| > 0 {
      SumAtMost(s[..|s| - 1], b);
    }
  }

  /** A sum of equal terms c is |s| * c. */
  lemma {:induction false} SumConstant(s: seq<real>, c: real)
    requires forall i :: 0 <= i < |s| ==> s[i] == c
    ensures Sum(s) == (|s| as real) * c
  {
    if |s| > 0 {
      SumConstant(s[..|s| - 1], c);
    }
  }

  lemma MeanAtMost(s: seq<real>, b: real)
    requires |s| > 0
    requires forall i :: 0 <= i < |s| ==> s[i] <= b
    ensures Mean(s) <= b
  {
    SumAtMost(s, b);
    var n := |s| as real;
    assert Sum(s) / n <= (n * b) / n;
  }

  lemma MeanConstant(s: seq<real>, c: real)
    requires |s| > 0
    requires forall i :: 0 <= i < |s| ==> s[i] == c
    ensures Mean(s) == c
  {
    SumConstant(s, c);
  }
}

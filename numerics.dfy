/**
 * Exact arithmetic that the numerical code relies on: complex numbers as pairs of reals,
 * sums and maxima over sample sequences, NumPy's `argmax`, Python's `int()` on a float,
 * and the one law assumed of the square root that NumPy computes.
 */
module Numerics {

  /** A complex number as a pair of reals (NumPy's complex128, without rounding). */
  datatype Complex = Complex(re: real, im: real)

  const Zero: Complex := Complex(0.0, 0.0)

  function Add(a: Complex, b: Complex): Complex {
    Complex(a.re + b.re, a.im + b.im)
  }

  function Mul(a: Complex, b: Complex): Complex {
    Complex(Times(a.re, b.re) - Times(a.im, b.im), Times(a.re, b.im) + Times(a.im, b.re))
  }

  /** A complex number times a real one. */
  function Scale(k: real, a: Complex): Complex {
    Complex(Times(k, a.re), Times(k, a.im))
  }

  /** Real multiplication. Every product in the model, squares included, is written with
      `Times`, so that the facts about squares below are the only ones the proofs use. */
  function Times(x: real, y: real): real {
    x * y
  }

  lemma TimesPositive(x: real, y: real)
    requires x > 0.0 && y > 0.0
    ensures Times(x, y) > 0.0
  {
  }

  lemma TimesNegate(x: real, y: real)
    ensures Times(-x, -y) == Times(x, y)
  {
  }

  lemma TimesZero(x: real, y: real)
    requires x == 0.0
    ensures Times(x, y) == 0.0
  {
  }

  lemma TimesMonotone(k: real, a: real, b: real)
    requires k >= 0.0 && a <= b
    ensures Times(k, a) <= Times(k, b)
  {
    assert Times(k, b) - Times(k, a) == Times(k, b - a);
    if k > 0.0 && a < b {
      TimesPositive(k, b - a);
    }
  }

  lemma TimesStrictMonotone(k: real, a: real, b: real)
    requires k > 0.0 && a < b
    ensures Times(k, a) < Times(k, b)
  {
    assert Times(k, b) - Times(k, a) == Times(k, b - a);
    TimesPositive(k, b - a);
  }

  /** `x ** 2`: never negative, and zero exactly at zero. */
  function Sq(x: real): (r: real)
    ensures r >= 0.0
    ensures r == 0.0 <==> x == 0.0
  {
    SelfProductSign(x);
    Times(x, x)
  }

  lemma SelfProductSign(x: real)
    ensures Times(x, x) >= 0.0
    ensures Times(x, x) == 0.0 <==> x == 0.0
  {
    if x > 0.0 {
      TimesPositive(x, x);
    } else if x < 0.0 {
      TimesPositive(-x, -x);
      TimesNegate(x, x);
    } else {
      TimesZero(x, x);
    }
  }

  /** The square is strictly increasing on the non-negative reals. */
  lemma SqStrictlyIncreasing(x: real, y: real)
    requires 0.0 <= x < y
    ensures Sq(x) < Sq(y)
  {
    TimesPositive(y - x, y + x);
    assert Times(y - x, y + x) == Sq(y) - Sq(x);
  }

  lemma SqOfProduct(x: real, y: real)
    ensures Sq(Times(x, y)) == Times(Sq(x), Sq(y))
  {
  }

  lemma SqOfQuotient(x: real, t: real)
    requires t != 0.0
    ensures Sq(x / t) == Sq(x) / Sq(t)
  {
  }

  /** `np.abs(c) ** 2`, computed without the square root it cancels. */
  function NormSq(a: Complex): (r: real)
    ensures r >= 0.0
    ensures r == 0.0 <==> a == Zero
  {
    Sq(a.re) + Sq(a.im)
  }

  /** |a·b|² = |a|²·|b|². */
  lemma NormSqMul(a: Complex, b: Complex)
    ensures NormSq(Mul(a, b)) == Times(NormSq(a), NormSq(b))
  {
  }

  /** |k·a|² = k²·|a|². */
  lemma NormSqScale(k: real, a: Complex)
    ensures NormSq(Scale(k, a)) == Times(Sq(k), NormSq(a))
  {
    SqOfProduct(k, a.re);
    SqOfProduct(k, a.im);
  }

  /** The law assumed of NumPy's square root: on non-negative arguments it returns the
      non-negative root. */
  ghost predicate IsSqrt(sqrt: real -> real) {
    forall v :: 0.0 <= v ==> 0.0 <= sqrt(v) && Sq(sqrt(v)) == v
  }

  lemma SqrtZeroIff(sqrt: real -> real, v: real)
    requires IsSqrt(sqrt) && 0.0 <= v
    ensures sqrt(v) >= 0.0
    ensures sqrt(v) == 0.0 <==> v == 0.0
  {
    assert Sq(sqrt(v)) == v;
  }

  /** The root is the only non-negative number that squares to its argument. */
  lemma SqrtUnique(sqrt: real -> real, v: real, s: real)
    requires IsSqrt(sqrt) && 0.0 <= v
    requires 0.0 <= s && Sq(s) == v
    ensures sqrt(v) == s
  {
    var t := sqrt(v);
    assert Sq(t) == v && t >= 0.0;
    if t < s {
      SqStrictlyIncreasing(t, s);
    } else if s < t {
      SqStrictlyIncreasing(s, t);
    }
  }

  lemma SqrtOfOne(sqrt: real -> real)
    requires IsSqrt(sqrt)
    ensures sqrt(1.0) == 1.0
  {
    assert Sq(1.0) == 1.0 by {
      assert Times(1.0, 1.0) == 1.0;
    }
    SqrtUnique(sqrt, 1.0, 1.0);
  }

  /** Python's `max(0, v)`: the clamp applied to variances before the square root. */
  function ClampNonNegative(v: real): (r: real)
    ensures r >= 0.0 && r >= v
    ensures r == v || r == 0.0
  {
    if 0.0 >= v then 0.0 else v
  }

  function Abs(x: real): (r: real)
    ensures r >= 0.0 && (r == x || r == -x)
  {
    if x < 0.0 then -x else x
  }

  /** Python's `int(x)` on a float: truncation toward zero. */
  function Trunc(x: real): (r: int)
    ensures x >= 0.0 ==> r as real <= x < r as real + 1.0
    ensures x < 0.0 ==> r as real - 1.0 < x <= r as real
  {
    if x >= 0.0 then x.Floor else -((-x).Floor)
  }

  /** `np.sum` over a sequence of samples. */
  function Sum(s: seq<real>): real
    decreases |s|
  {
    if s == [] then 0.0 else Sum(s[..|s| - 1]) + s[|s| - 1]
  }

  lemma {:induction false} SumNonNegative(s: seq<real>)
    requires forall i :: 0 <= i < |s| ==> s[i] >= 0.0
    ensures Sum(s) >= 0.0
    decreases |s|
  {
    if s != [] {
      SumNonNegative(s[..|s| - 1]);
    }
  }

  lemma {:induction false} SumAppend(s: seq<real>, t: seq<real>)
    ensures Sum(s + t) == Sum(s) + Sum(t)
    decreases |t|
  {
    if t == [] {
      assert s + t == s;
    } else {
      assert (s + t)[..|s + t| - 1] == s + t[..|t| - 1];
      SumAppend(s, t[..|t| - 1]);
    }
  }

  /** A sum of non-negative terms is zero only if every term is. */
  lemma {:induction false} SumZeroMeansAllZero(s: seq<real>)
    requires forall i :: 0 <= i < |s| ==> s[i] >= 0.0
    requires Sum(s) == 0.0
    ensures forall i :: 0 <= i < |s| ==> s[i] == 0.0
    decreases |s|
  {
    if s != [] {
      var init := s[..|s| - 1];
      SumNonNegative(init);
      SumZeroMeansAllZero(init);
      forall i | 0 <= i < |s| ensures s[i] == 0.0 {
        if i < |s| - 1 { assert s[i] == init[i]; }
      }
    }
  }

  /** Every term of a sum of non-negative terms is at most the sum. */
  lemma {:induction false} TermAtMostSum(s: seq<real>, k: nat)
    requires forall i :: 0 <= i < |s| ==> s[i] >= 0.0
    requires k < |s|
    ensures s[k] <= Sum(s)
    decreases |s|
  {
    var init := s[..|s| - 1];
    if k == |s| - 1 {
      SumNonNegative(init);
    } else {
      TermAtMostSum(init, k);
    }
  }

  /** Two distinct non-negative terms together are at most the sum. */
  lemma {:induction false} TwoTermsAtMostSum(s: seq<real>, i: nat, j: nat)
    requires forall k :: 0 <= k < |s| ==> s[k] >= 0.0
    requires i < |s| && j < |s| && i != j
    ensures s[i] + s[j] <= Sum(s)
    decreases |s|
  {
    var init := s[..|s| - 1];
    assert forall k :: 0 <= k < |init| ==> init[k] == s[k];
    if i == |s| - 1 {
      TermAtMostSum(init, j);
    } else if j == |s| - 1 {
      TermAtMostSum(init, i);
    } else {
      TwoTermsAtMostSum(init, i, j);
    }
  }

  /** Summing termwise-smaller terms gives a smaller sum. */
  lemma {:induction false} SumMonotone(s: seq<real>, t: seq<real>)
    requires |s| == |t| && forall k :: 0 <= k < |s| ==> s[k] <= t[k]
    ensures Sum(s) <= Sum(t)
    decreases |s|
  {
    if s != [] {
      SumMonotone(s[..|s| - 1], t[..|t| - 1]);
    }
  }

  /** ... and strictly smaller when one term is strictly smaller. */
  lemma {:induction false} SumStrictlyMonotone(s: seq<real>, t: seq<real>, i: nat)
    requires |s| == |t| && forall k :: 0 <= k < |s| ==> s[k] <= t[k]
    requires i < |s| && s[i] < t[i]
    ensures Sum(s) < Sum(t)
    decreases |s|
  {
    var n := |s| - 1;
    if i == n {
      SumMonotone(s[..n], t[..n]);
    } else {
      SumStrictlyMonotone(s[..n], t[..n], i);
    }
  }

  lemma SumWhole(s: seq<real>)
    ensures Sum(s[..|s|]) == Sum(s)
  {
    assert s[..|s|] == s;
  }

  /** Each term divided by the same non-zero t. */
  function DivideAll(s: seq<real>, t: real): (r: seq<real>)
    requires t != 0.0
    ensures |r| == |s| && forall k :: 0 <= k < |s| ==> r[k] == s[k] / t
  {
    seq(|s|, k requires 0 <= k < |s| => s[k] / t)
  }

  /** Dividing every term divides the sum. */
  lemma {:induction false} SumDivideAll(s: seq<real>, t: real)
    requires t != 0.0
    ensures Sum(DivideAll(s, t)) == Sum(s) / t
    decreases |s|
  {
    if s != [] {
      var n := |s| - 1;
      assert DivideAll(s, t)[..n] == DivideAll(s[..n], t);
      SumDivideAll(s[..n], t);
    }
  }

  /** Dividing non-negative terms by a positive t keeps exactly the zero terms zero. */
  lemma DivideAllZeroes(s: seq<real>, t: real)
    requires t > 0.0 && forall k :: 0 <= k < |s| ==> s[k] >= 0.0
    ensures forall k :: 0 <= k < |s| ==> (DivideAll(s, t)[k] == 0.0 <==> s[k] == 0.0)
  {
    forall k | 0 <= k < |s| ensures DivideAll(s, t)[k] == 0.0 <==> s[k] == 0.0 {
      QuotientSign(s[k], t);
    }
  }

  lemma SumOfPair(x: real, y: real)
    ensures Sum([x, y]) == x + y
  {
    assert [x, y][..1] == [x];
    assert [x][..0] == [];
    assert Sum([x]) == x;
  }

  /** Two equal positive terms divided by their total are halves. */
  lemma HalvesOfPair(x: real)
    requires x > 0.0
    ensures DivideAll([x, x], x + x) == [0.5, 0.5]
  {
    var d := DivideAll([x, x], x + x);
    assert x / (x + x) == 0.5;
    assert d[0] == 0.5 && d[1] == 0.5;
  }

  lemma DivideBySelf(x: real)
    requires x != 0.0
    ensures x / x == 1.0
  {
  }

  lemma QuotientSign(x: real, t: real)
    requires x >= 0.0 && t > 0.0
    ensures x / t >= 0.0
    ensures x / t == 0.0 <==> x == 0.0
  {
  }

  lemma TimesDistributes(x: real, y: real, z: real)
    ensures Times(x, z) + Times(y, z) == Times(x + y, z)
  {
  }

  lemma TimesOne(x: real)
    ensures Times(1.0, x) == x
  {
  }

  lemma TimesNonNegative(x: real, y: real)
    requires x >= 0.0 && y >= 0.0
    ensures Times(x, y) >= 0.0
  {
    if x > 0.0 && y > 0.0 {
      TimesPositive(x, y);
    } else if x == 0.0 {
      TimesZero(x, y);
    } else {
      assert Times(x, y) == Times(y, x);
      TimesZero(y, x);
    }
  }

  /** `np.max` of a non-empty sequence. */
  function Max(s: seq<real>): (r: real)
    requires s != []
    ensures forall i :: 0 <= i < |s| ==> s[i] <= r
    ensures exists i :: 0 <= i < |s| && s[i] == r
    decreases |s|
  {
    if |s| == 1 then s[0]
    else
      var m := Max(s[..|s| - 1]);
      assert forall i :: 0 <= i < |s| - 1 ==> s[i] == s[..|s| - 1][i];
      if s[|s| - 1] > m then s[|s| - 1] else m
  }

  /** A sum is at most the count times any bound on its terms. */
  lemma {:induction false} SumAtMostCountTimesBound(s: seq<real>, m: real)
    requires forall i :: 0 <= i < |s| ==> s[i] <= m
    ensures Sum(s) <= Times(|s| as real, m)
    decreases |s|
  {
    if s != [] {
      var init := s[..|s| - 1];
      assert forall i :: 0 <= i < |init| ==> init[i] == s[i];
      SumAtMostCountTimesBound(init, m);
      assert Times(|s| as real, m) == Times(|init| as real, m) + m;
    }
  }

  /** `np.argmax`: the FIRST index holding the largest value. */
  function ArgMax(s: seq<real>): (k: nat)
    requires s != []
    ensures k < |s|
    ensures forall j :: 0 <= j < |s| ==> s[j] <= s[k]
    ensures forall j :: 0 <= j < k ==> s[j] < s[k]
    decreases |s|
  {
    if |s| == 1 then 0
    else
      var init := s[..|s| - 1];
      var k := ArgMax(init);
      assert forall j :: 0 <= j < |s| - 1 ==> s[j] == init[j];
      if s[|s| - 1] > s[k] then |s| - 1 else k
  }

  /** Sample `i` of `np.linspace(start, stop, num)`: `start + i * step` with
      `step = (stop - start) / (num - 1)`, and just `start` when `num == 1`. */
  function LinspacePoint(start: real, stop: real, num: nat, i: nat): (r: real)
    requires i < num
    ensures i == 0 ==> r == start
    ensures num >= 2 && i == num - 1 ==> r == stop
    ensures start <= stop ==> start <= r <= stop
  {
    if num == 1 then start
    else
      var step := (stop - start) / (num - 1) as real;
      assert Times((num - 1) as real, step) == stop - start;
      assert Times(i as real, step) == Times(step, i as real);
      assert Times((num - 1) as real, step) == Times(step, (num - 1) as real);
      if start <= stop then
        TimesMonotone(step, 0.0, i as real);
        TimesMonotone(step, i as real, (num - 1) as real);
        start + Times(i as real, step)
      else
        start + Times(i as real, step)
  }

  /** Consecutive samples are one step apart. */
  lemma LinspaceStep(start: real, stop: real, num: nat, i: nat)
    requires num >= 2 && i + 1 < num
    ensures LinspacePoint(start, stop, num, i + 1) - LinspacePoint(start, stop, num, i)
      == (stop - start) / (num - 1) as real
  {
    var step := (stop - start) / (num - 1) as real;
    assert Times((i + 1) as real, step) == Times(i as real, step) + step;
  }

  /** `np.linspace(start, stop, num)` for a non-negative count: `num` evenly spaced samples
      from `start` to `stop`, increasing when `start < stop`. */
  function Linspace(start: real, stop: real, num: nat): (r: seq<real>)
    ensures |r| == num
    ensures forall i :: 0 <= i < num ==> r[i] == LinspacePoint(start, stop, num, i)
    ensures num >= 1 ==> r[0] == start
    ensures num >= 2 ==> r[num - 1] == stop
    ensures num >= 2 ==> forall i :: 0 <= i < num - 1 ==> r[i + 1] - r[i] == (stop - start) / (num - 1) as real
    ensures start < stop ==> forall i :: 0 <= i < num - 1 ==> r[i] < r[i + 1]
  {
    var r := seq(num, i requires 0 <= i < num => LinspacePoint(start, stop, num, i));
    var step := if num >= 2 then (stop - start) / (num - 1) as real else 0.0;
    assert start < stop && num >= 2 ==> step > 0.0;
    forall i | 0 <= i < num - 1
      ensures r[i + 1] - r[i] == step
      ensures start < stop ==> r[i] < r[i + 1]
    {
      LinspaceStep(start, stop, num, i);
    }
    r
  }
}

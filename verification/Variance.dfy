/** Mean and variance over exact reals. The standard deviation is the root of the variance, so it is
    positive exactly when the variance is. */
module Variance {

  // ---------- products and quotients ----------

  function Times(x: real, y: real): real { x * y }

  function Over(x: real, d: real): real
    requires d != 0.0
  {
    x / d
  }

  lemma TimesSigns(x: real, y: real)
    ensures x > 0.0 && y > 0.0 ==> Times(x, y) > 0.0
    ensures x == 0.0 ==> Times(x, y) == 0.0
  {
  }

  lemma TimesNegated(x: real, y: real)
    ensures Times(-x, -y) == Times(x, y) && Times(x, -y) == -Times(x, y)
  {
  }

  lemma TimesNext(x: real, y: real)
    ensures Times(x + 1.0, y) == Times(x, y) + y
  {
  }

  lemma OverSign(x: real, d: real)
    requires d > 0.0
    ensures Over(x, d) > 0.0 <==> x > 0.0
    ensures Over(x, d) == 0.0 <==> x == 0.0
  {
  }

  lemma OverTimes(x: real, d: real)
    requires d != 0.0
    ensures Times(d, Over(x, d)) == x
  {
  }

  lemma TimesOver(x: real, d: real)
    requires d != 0.0
    ensures Over(Times(d, x), d) == x
  {
  }

  lemma AddOver(x: real, y: real, d: real)
    requires d != 0.0
    ensures Over(x, d) + Over(y, d) == Over(x + y, d)
  {
  }

  // ---------- mean and deviation ----------

  function Sum(xs: seq<real>): real { if xs == [] then 0.0 else Sum(xs[..|xs|-1]) + xs[|xs|-1] }

  function Mean(xs: seq<real>): real
    requires |xs| > 0
  {
    Over(Sum(xs), |xs| as real)
  }

  function Square(x: real): real { Times(x, x) }

  /** The sum of the squared deviations from m. */
  function Deviation(xs: seq<real>, m: real): real {
    if xs == [] then 0.0 else Deviation(xs[..|xs|-1], m) + Square(xs[|xs|-1] - m)
  }

  predicate Constant(xs: seq<real>) { forall i, j :: 0 <= i < |xs| && 0 <= j < |xs| ==> xs[i] == xs[j] }

  lemma SquareSign(x: real)
    ensures Square(x) >= 0.0 && (Square(x) == 0.0 <==> x == 0.0)
  {
    hide Times;
    TimesSigns(x, x);
    TimesSigns(-x, -x);
    TimesNegated(x, x);
  }

  lemma {:induction false} SumConstant(xs: seq<real>, c: real)
    requires forall i :: 0 <= i < |xs| ==> xs[i] == c
    ensures Sum(xs) == Times(|xs| as real, c)
  {
    hide Times;
    if xs == [] {
      TimesSigns(0.0, c);
    } else {
      SumConstant(xs[..|xs|-1], c);
      TimesNext((|xs| - 1) as real, c);
    }
  }

  lemma {:induction false} DeviationSign(xs: seq<real>, m: real)
    ensures Deviation(xs, m) >= 0.0
    ensures Deviation(xs, m) == 0.0 <==> forall i :: 0 <= i < |xs| ==> xs[i] == m
  {
    hide Square;
    if xs != [] {
      var init := xs[..|xs|-1];
      DeviationSign(init, m);
      SquareSign(xs[|xs|-1] - m);
      assert forall i :: 0 <= i < |init| ==> init[i] == xs[i];
    }
  }

  lemma ConstantIffMean(xs: seq<real>)
    requires |xs| > 0
    ensures Constant(xs) <==> forall i :: 0 <= i < |xs| ==> xs[i] == Mean(xs)
  {
    hide Times, Over, Sum;
    if Constant(xs) {
      SumConstant(xs, xs[0]);
      TimesOver(xs[0], |xs| as real);
    }
  }

  /** The deviation from the mean vanishes exactly for constant values. */
  lemma DeviationFromMean(xs: seq<real>)
    requires |xs| > 0
    ensures Deviation(xs, Mean(xs)) >= 0.0
    ensures Deviation(xs, Mean(xs)) > 0.0 <==> !Constant(xs)
  {
    hide Mean, Deviation, Constant;
    DeviationSign(xs, Mean(xs));
    ConstantIffMean(xs);
  }

  lemma {:induction false} SumShift(xs: seq<real>, ys: seq<real>, c: real)
    requires |xs| == |ys| && forall i :: 0 <= i < |xs| ==> ys[i] == xs[i] + c
    ensures Sum(ys) == Sum(xs) + Times(|xs| as real, c)
  {
    hide Times;
    if xs == [] {
      TimesSigns(0.0, c);
    } else {
      SumShift(xs[..|xs|-1], ys[..|ys|-1], c);
      TimesNext((|xs| - 1) as real, c);
    }
  }

  lemma MeanShift(xs: seq<real>, ys: seq<real>, c: real)
    requires |xs| == |ys| > 0 && forall i :: 0 <= i < |xs| ==> ys[i] == xs[i] + c
    ensures Mean(ys) == Mean(xs) + c
  {
    hide Times, Over, Sum;
    SumShift(xs, ys, c);
    AddOver(Sum(xs), Times(|xs| as real, c), |xs| as real);
    TimesOver(c, |xs| as real);
  }

  lemma {:induction false} DeviationShift(xs: seq<real>, ys: seq<real>, c: real, m: real)
    requires |xs| == |ys| && forall i :: 0 <= i < |xs| ==> ys[i] == xs[i] + c
    ensures Deviation(ys, m + c) == Deviation(xs, m)
  {
    hide Square;
    if xs != [] {
      DeviationShift(xs[..|xs|-1], ys[..|ys|-1], c, m);
      assert ys[|ys|-1] - (m + c) == xs[|xs|-1] - m;
    }
  }

  /** The deviations from the mean sum to zero. */
  lemma SumCentred(xs: seq<real>, zs: seq<real>)
    requires |zs| == |xs| > 0 && forall i :: 0 <= i < |xs| ==> zs[i] == xs[i] - Mean(xs)
    ensures Sum(zs) == 0.0
  {
    hide Times, Over, Sum;
    SumShift(xs, zs, -Mean(xs));
    TimesNegated(|xs| as real, Mean(xs));
    OverTimes(Sum(xs), |xs| as real);
  }

  /** Dividing every term divides the sum. */
  lemma {:induction false} SumOver(xs: seq<real>, ys: seq<real>, d: real)
    requires d > 0.0 && |xs| == |ys| && forall k :: 0 <= k < |xs| ==> ys[k] == Over(xs[k], d)
    ensures Sum(ys) == Over(Sum(xs), d)
  {
    hide Over;
    if xs == [] {
      OverSign(0.0, d);
    } else {
      var n := |xs| - 1;
      SumOver(xs[..n], ys[..n], d);
      AddOver(Sum(xs[..n]), xs[n], d);
    }
  }

  // ---------- the order of the values does not matter ----------

  lemma {:induction false} TakeOut(xs: seq<real>, j: nat, m: real)
    requires j < |xs|
    ensures Sum(xs) == Sum(xs[..j] + xs[j + 1..]) + xs[j]
    ensures Deviation(xs, m) == Deviation(xs[..j] + xs[j + 1..], m) + Square(xs[j] - m)
  {
    hide Square;
    var n := |xs| - 1;
    if j == n {
      assert xs[..j] + xs[j + 1..] == xs[..n];
    } else {
      TakeOut(xs[..n], j, m);
      var rest := xs[..j] + xs[j + 1..];
      assert rest[..|rest|-1] == xs[..n][..j] + xs[..n][j + 1..];
    }
  }

  lemma {:induction false} Permuted(xs: seq<real>, ys: seq<real>, m: real)
    requires multiset(xs) == multiset(ys)
    ensures |xs| == |ys| && Sum(xs) == Sum(ys) && Deviation(xs, m) == Deviation(ys, m)
    decreases |xs|
  {
    assert |xs| == |multiset(xs)| == |multiset(ys)| == |ys|;
    hide *;
    if xs == [] {
      assert xs == ys;
    } else {
      var n := |xs| - 1;
      var j := Find(ys, xs[n]);
      RestPermuted(xs, n, ys, j);
      TakeOut(xs, n, m);
      TakeOut(ys, j, m);
      Permuted(xs[..n] + xs[n + 1..], ys[..j] + ys[j + 1..], m);
    }
  }

  lemma Find(ys: seq<real>, x: real) returns (j: nat)
    requires x in multiset(ys)
    ensures j < |ys| && ys[j] == x
  {
    j :| 0 <= j < |ys| && ys[j] == x;
  }

  lemma RestPermuted(xs: seq<real>, i: nat, ys: seq<real>, j: nat)
    requires multiset(xs) == multiset(ys) && i < |xs| && j < |ys| && xs[i] == ys[j]
    ensures multiset(xs[..i] + xs[i + 1..]) == multiset(ys[..j] + ys[j + 1..])
  {
    OneLess(xs, i);
    OneLess(ys, j);
  }

  lemma OneLess(xs: seq<real>, i: nat)
    requires i < |xs|
    ensures multiset(xs[..i] + xs[i + 1..]) == multiset(xs) - multiset{xs[i]}
  {
    assert xs == xs[..i] + [xs[i]] + xs[i + 1..];
  }
}

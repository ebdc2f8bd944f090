/** Polynomials over GF(2^8), lowest coefficient first: evaluation by Horner's rule,
    division by a linear factor, and interpolation. */
module Polynomial {
  import opened GF256

  type poly = seq<byte>

  /** Horner's rule, as the splitter evaluates a share. */
  function Eval(p: poly, x: byte): byte {
    if p == [] then 0 else Xor(p[0], Mul(Eval(p[1..], x), x))
  }

  function Values(p: poly, xs: seq<byte>): (ys: seq<byte>)
    ensures |ys| == |xs|
    ensures forall i :: 0 <= i < |xs| ==> ys[i] == Eval(p, xs[i])
  {
    if xs == [] then [] else Values(p, xs[..|xs| - 1]) + [Eval(p, xs[|xs| - 1])]
  }

  ghost predicate Distinct(xs: seq<byte>) {
    forall i, j :: 0 <= i < j < |xs| ==> xs[i] != xs[j]
  }

  /** The Lagrange weight at zero of the point `x` among `xs`. */
  function Weight(x: byte, xs: seq<byte>): byte {
    if xs == [] then 1
    else
      var rest, y := Weight(x, xs[..|xs| - 1]), xs[|xs| - 1];
      if x == y then rest else Mul(rest, Quotient(y, Xor(x, y)))
  }

  function WeightedSum(xs: seq<byte>, ys: seq<byte>, base: seq<byte>): byte
    requires |xs| == |ys|
  {
    if xs == [] then 0
    else
      var n := |xs| - 1;
      Xor(WeightedSum(xs[..n], ys[..n], base), Mul(ys[n], Weight(xs[n], base)))
  }

  /** Lagrange interpolation at zero. */
  function Interpolate(xs: seq<byte>, ys: seq<byte>): byte
    requires |xs| == |ys|
  {
    WeightedSum(xs, ys, xs)
  }

  // ---------- division by x + r ----------

  function DivideBy(p: poly, r: byte): (q: poly)
    ensures |q| == if p == [] then 0 else |p| - 1
  {
    if |p| <= 1 then [] else [Eval(p[1..], r)] + DivideBy(p[1..], r)
  }

  /** p(x) == p(r) + (x + r) * q(x) */
  lemma {:induction false} Division(p: poly, r: byte, x: byte)
    ensures Eval(p, x) == Xor(Eval(p, r), Mul(Xor(x, r), Eval(DivideBy(p, r), x)))
  {
    MulByZero(x);
    MulByZero(r);
    MulByZero(Xor(x, r));
    hide Mul, Xor;
    if |p| <= 1 {
      if |p| == 1 {
        assert p[1..] == [];
        XorZero(p[0]);
      }
      XorZero(0);
    } else {
      var p1 := p[1..];
      var q1 := DivideBy(p1, r);
      Division(p1, r, x);
      assert DivideBy(p, r)[1..] == q1;
      DivisionStep(p[0], Eval(p1, r), Eval(q1, x), x, r);
    }
  }

  lemma MulByZero(a: byte)
    ensures Mul(a, 0) == 0 == Mul(0, a)
  {
    MulZero(a);
  }

  /** c + x (v + (x + r) q)  ==  (c + r v) + (x + r) (v + x q) */
  lemma DivisionStep(c: byte, v: byte, q: byte, x: byte, r: byte)
    ensures Xor(c, Mul(Xor(v, Mul(Xor(x, r), q)), x)) == Xor(Xor(c, Mul(v, r)), Mul(Xor(x, r), Xor(v, Mul(q, x))))
  {
    hide *;
    var d := Xor(x, r);
    MulXorLeft(v, Mul(d, q), x);
    MulAssoc(d, q, x);
    MulXorRight(d, v, Mul(q, x));
    MulComm(d, v);
    MulXorRight(v, x, r);
    XorAssoc(c, Mul(v, r), Xor(Mul(v, d), Mul(d, Mul(q, x))));
    XorAssoc(Mul(v, r), Mul(v, d), Mul(d, Mul(q, x)));
    XorComm(Mul(v, x), Mul(v, r));
    XorCancel(Mul(v, x), Mul(v, r));
  }

  // ---------- the polynomial with given roots ----------

  function AddConstant(a: byte, p: poly): (q: poly)
    ensures |q| == if p == [] then 1 else |p|
  {
    if p == [] then [a] else [Xor(a, p[0])] + p[1..]
  }

  lemma EvalAddConstant(a: byte, p: poly, x: byte)
    ensures Eval(AddConstant(a, p), x) == Xor(a, Eval(p, x))
  {
    MulByZero(x);
    XorZero(a);
    hide Mul, Xor;
    if p != [] {
      assert AddConstant(a, p)[1..] == p[1..];
      XorAssoc(a, p[0], Mul(Eval(p[1..], x), x));
    } else {
      assert [a][1..] == [];
    }
  }

  /** (x + r) * p */
  function TimesRoot(p: poly, r: byte): (q: poly)
    ensures |q| == if p == [] then 0 else |p| + 1
  {
    if p == [] then [] else [Mul(r, p[0])] + AddConstant(p[0], TimesRoot(p[1..], r))
  }

  lemma {:induction false} EvalTimesRoot(p: poly, r: byte, x: byte)
    ensures Eval(TimesRoot(p, r), x) == Mul(Xor(x, r), Eval(p, x))
  {
    MulByZero(Xor(x, r));
    hide Mul, Xor;
    if p != [] {
      var p1, d := p[1..], Xor(x, r);
      var t := TimesRoot(p1, r);
      EvalTimesRoot(p1, r, x);
      EvalAddConstant(p[0], t, x);
      assert TimesRoot(p, r)[1..] == AddConstant(p[0], t);
      var c, v := p[0], Eval(p1, x);
      // r c + x (c + d v)  ==  d (c + x v)
      MulXorLeft(c, Mul(d, v), x);
      MulAssoc(d, v, x);
      MulComm(r, c);
      XorAssoc(Mul(c, r), Mul(c, x), Mul(d, Mul(v, x)));
      MulXorRight(c, r, x);
      XorComm(r, x);
      MulComm(c, d);
      MulXorRight(d, c, Mul(v, x));
    }
  }

  function Vanishing(zs: seq<byte>): (p: poly)
    ensures |p| == |zs| + 1
  {
    if zs == [] then [1] else TimesRoot(Vanishing(zs[..|zs| - 1]), zs[|zs| - 1])
  }

  lemma ConstantOne(x: byte)
    ensures Eval([1], x) == 1
  {
    MulByZero(x);
    assert [1][1..] == [];
    XorZero(1);
    hide Mul, Xor;
  }

  lemma ProductIsZero(a: byte, b: byte)
    ensures Mul(a, b) == 0 <==> a == 0 || b == 0
  {
    hide *;
    MulByZero(a);
    MulByZero(b);
    if Mul(a, b) == 0 {
      MulCancel(a, b);
    }
  }

  lemma InInitOrLast(zs: seq<byte>, x: byte)
    requires zs != []
    ensures x in zs <==> x in zs[..|zs| - 1] || x == zs[|zs| - 1]
  {
    var n := |zs| - 1;
    if x in zs {
      var i :| 0 <= i < |zs| && zs[i] == x;
      assert i < n ==> zs[..n][i] == x;
    }
  }

  lemma {:induction false} VanishingRoots(zs: seq<byte>, x: byte)
    ensures Eval(Vanishing(zs), x) == 0 <==> x in zs
  {
    if zs == [] {
      ConstantOne(x);
    } else {
      var n := |zs| - 1;
      var v := Vanishing(zs[..n]);
      assert Vanishing(zs) == TimesRoot(v, zs[n]);
      hide *;
      VanishingRoots(zs[..n], x);
      EvalTimesRoot(v, zs[n], x);
      ProductIsZero(Xor(x, zs[n]), Eval(v, x));
      XorCancel(x, zs[n]);
      InInitOrLast(zs, x);
    }
  }

  /** The weight of a new point is the ratio of the vanishing polynomial at zero and there. */
  lemma {:induction false} VanishingRatio(zs: seq<byte>, r: byte)
    requires r !in zs
    ensures Mul(Eval(Vanishing(zs), r), Weight(r, zs)) == Eval(Vanishing(zs), 0)
  {
    if zs == [] {
      ConstantOne(r);
      ConstantOne(0);
      MulOne(1);
    } else {
      var n := |zs| - 1;
      var z := zs[n];
      var v, w := Vanishing(zs[..n]), Weight(r, zs[..n]);
      VanishingRatio(zs[..n], r);
      EvalTimesRoot(v, z, r);
      EvalTimesRoot(v, z, 0);
      XorZero(z);
      XorCancel(r, z);
      var d := Xor(r, z);
      assert Weight(r, zs) == Mul(w, Quotient(z, d));
      QuotientUndoesMul(z, d);
      hide *;
      // (d e) (w (z / d)) == (d (z / d)) (e w)
      var e := Eval(v, r);
      MulComm(d, e);
      MulExchange(e, d, w, Quotient(z, d));
      MulComm(d, Quotient(z, d));
      MulComm(Mul(e, w), z);
    }
  }

  // ---------- interpolation is exact ----------

  function Ones(n: nat): (s: seq<byte>)
    ensures |s| == n
  {
    if n == 0 then [] else Ones(n - 1) + [1]
  }

  lemma WeightExtend(x: byte, zs: seq<byte>, r: byte)
    ensures Weight(x, zs + [r]) == if x == r then Weight(x, zs) else Mul(Weight(x, zs), Quotient(r, Xor(x, r)))
  {
    assert (zs + [r])[..|zs|] == zs;
  }

  /** One term of the sum: p(x) w'(x) == p(r) w'(x) + r q(x) w(x). */
  lemma TermSplits(p: poly, x: byte, zs: seq<byte>, r: byte)
    requires x != r
    ensures var w := Weight(x, zs + [r]);
            Mul(Eval(p, x), w) == Xor(Mul(Eval(p, r), w), Mul(r, Mul(Eval(DivideBy(p, r), x), Weight(x, zs))))
  {
    WeightExtend(x, zs, r);
    XorCancel(x, r);
    var d := Xor(x, r);
    QuotientUndoesMul(r, d);
    Division(p, r, x);
    hide *;
    var w, w', q := Weight(x, zs), Weight(x, zs + [r]), Eval(DivideBy(p, r), x);
    MulXorLeft(Eval(p, r), Mul(d, q), w');
    // (d q) (w (r / d)) == (r) (q w)
    MulComm(d, q);
    MulExchange(q, d, w, Quotient(r, d));
    MulComm(d, Quotient(r, d));
    MulComm(Mul(q, w), r);
  }

  /** The last term of a weighted sum, for the values of a polynomial and for ones. */
  lemma SumLast(p: poly, xs: seq<byte>, base: seq<byte>)
    requires xs != []
    ensures var n := |xs| - 1;
            && WeightedSum(xs, Values(p, xs), base)
               == Xor(WeightedSum(xs[..n], Values(p, xs[..n]), base), Mul(Eval(p, xs[n]), Weight(xs[n], base)))
            && WeightedSum(xs, Ones(|xs|), base)
               == Xor(WeightedSum(xs[..n], Ones(n), base), Weight(xs[n], base))
  {
    hide Mul, Xor, Eval, Weight;
    var n := |xs| - 1;
    assert Values(p, xs)[..n] == Values(p, xs[..n]);
    assert Ones(|xs|)[..n] == Ones(n);
    MulOne(Weight(xs[n], base));
  }

  lemma {:induction false} SumSplits(p: poly, xs: seq<byte>, zs: seq<byte>, r: byte)
    requires r !in xs
    ensures WeightedSum(xs, Values(p, xs), zs + [r])
         == Xor(Mul(Eval(p, r), WeightedSum(xs, Ones(|xs|), zs + [r])),
                Mul(r, WeightedSum(xs, Values(DivideBy(p, r), xs), zs)))
  {
    if xs == [] {
      MulByZero(Eval(p, r));
      MulByZero(r);
      XorZero(0);
      hide Mul, Xor, Eval, DivideBy;
    } else {
      hide *;
      var n, q := |xs| - 1, DivideBy(p, r);
      var x := xs[n];
      SumSplits(p, xs[..n], zs, r);
      TermSplits(p, x, zs, r);
      SumLast(p, xs, zs + [r]);
      SumLast(q, xs, zs);
      var w' := Weight(x, zs + [r]);
      var a := WeightedSum(xs[..n], Ones(n), zs + [r]);
      var b := WeightedSum(xs[..n], Values(q, xs[..n]), zs);
      var t := Mul(Eval(q, x), Weight(x, zs));
      MulXorRight(Eval(p, r), a, w');
      MulXorRight(r, b, t);
      XorSwap(Mul(Eval(p, r), a), Mul(r, b), Mul(Eval(p, r), w'), Mul(r, t));
    }
  }

  lemma {:induction false} SumOfZeros(xs: seq<byte>, ys: seq<byte>, base: seq<byte>)
    requires |xs| == |ys|
    requires forall i :: 0 <= i < |ys| ==> ys[i] == 0
    ensures WeightedSum(xs, ys, base) == 0
  {
    hide Mul, Xor, Weight;
    if xs != [] {
      var n := |xs| - 1;
      SumOfZeros(xs[..n], ys[..n], base);
      MulByZero(Weight(xs[n], base));
      XorZero(0);
    }
  }

  /** Any polynomial with no more coefficients than there are points is read back at zero
      from its values at those points. */
  lemma {:induction false} InterpolationIsExact(p: poly, xs: seq<byte>)
    requires Distinct(xs) && |p| <= |xs|
    ensures Interpolate(xs, Values(p, xs)) == Eval(p, 0)
    decreases |xs|
  {
    hide Mul, Xor, Weight;
    if xs != [] {
      var n := |xs| - 1;
      var zs, r := xs[..n], xs[n];
      assert xs == zs + [r];
      assert r !in zs;
      var sum := WeightedSum(zs, Values(p, zs), xs);
      var ones := WeightedSum(zs, Ones(n), xs);
      SumBeforeLast(p, zs, r);
      WeightOfLast(zs, r);
      WeightExtend(r, zs, r);
      assert Values(p, xs)[..n] == Values(p, zs);
      assert Interpolate(xs, Values(p, xs)) == Xor(sum, Mul(Eval(p, r), Weight(r, zs)));
      hide *;
      // sum == p(r) ones + (p(0) + p(r)), and w(r) == ones + 1
      var v, z := Eval(p, r), Eval(p, 0);
      MulXorRight(v, ones, 1);
      MulComm(v, 1);
      MulOne(v);
      XorSwap(Mul(v, ones), Xor(z, v), Mul(v, ones), v);
      XorZero(Mul(v, ones));
      XorCancel(z, v);
      XorZero(z);
    }
  }

  lemma {:induction false} SumBeforeLast(p: poly, zs: seq<byte>, r: byte)
    requires Distinct(zs + [r]) && |p| <= |zs| + 1
    ensures WeightedSum(zs, Values(p, zs), zs + [r])
         == Xor(Mul(Eval(p, r), WeightedSum(zs, Ones(|zs|), zs + [r])), Xor(Eval(p, 0), Eval(p, r)))
    decreases |zs| + 1, 0
  {
    var xs, q := zs + [r], DivideBy(p, r);
    assert Distinct(zs) by {
      assert forall i :: 0 <= i < |zs| ==> xs[i] == zs[i];
    }
    assert r !in zs by {
      assert forall i :: 0 <= i < |zs| ==> xs[i] == zs[i] && xs[i] != xs[|zs|];
    }
    InterpolationIsExact(q, zs);
    assert Interpolate(zs, Values(q, zs)) == WeightedSum(zs, Values(q, zs), zs);
    hide *;
    SumSplits(p, zs, zs, r);
    Division(p, r, 0);
    XorZero(r);
    XorComm(Xor(Eval(p, r), Mul(r, Eval(q, 0))), Eval(p, r));
    XorCancel(Mul(r, Eval(q, 0)), Eval(p, r));
  }

  /** The weights sum to one, stated for the last point. */
  lemma {:induction false} WeightOfLast(zs: seq<byte>, r: byte)
    requires Distinct(zs + [r])
    ensures Weight(r, zs) == Xor(WeightedSum(zs, Ones(|zs|), zs + [r]), 1)
    decreases |zs| + 1, 1
  {
    var v := Vanishing(zs);
    assert r !in zs by {
      var xs := zs + [r];
      assert forall i :: 0 <= i < |zs| ==> xs[i] == zs[i] && xs[i] != xs[|zs|];
    }
    forall i | 0 <= i < |zs|
      ensures Values(v, zs)[i] == 0
    {
      VanishingRoots(zs, zs[i]);
    }
    VanishingRoots(zs, r);
    SumOfZeros(zs, Values(v, zs), zs + [r]);
    SumBeforeLast(v, zs, r);
    VanishingRatio(zs, r);
    hide *;
    var e, e0, ones, w := Eval(v, r), Eval(v, 0), WeightedSum(zs, Ones(|zs|), zs + [r]), Weight(r, zs);
    // 0 == e ones + (e w + e)  gives  e (ones + 1 + w) == 0
    MulXorRight(e, Xor(ones, 1), w);
    MulXorRight(e, ones, 1);
    MulComm(e, 1);
    MulOne(e);
    XorComm(e0, e);
    XorAssoc(Mul(e, ones), e, e0);
    MulCancel(e, Xor(Xor(ones, 1), w));
    XorCancel(Xor(ones, 1), w);
  }

  // ---------- few roots, and a fit through any values ----------

  ghost predicate IsZero(p: poly) {
    forall i :: 0 <= i < |p| ==> p[i] == 0
  }

  lemma {:induction false} ZeroDivides(p: poly, r: byte)
    requires IsZero(DivideBy(p, r)) && Eval(p, r) == 0
    ensures IsZero(p)
  {
    MulByZero(r);
    if p != [] {
      var p1 := p[1..];
      XorZero(p[0]);
      if |p| > 1 {
        var q := DivideBy(p, r);
        assert q[0] == Eval(p1, r);
        assert DivideBy(p1, r) == q[1..];
        ZeroDivides(p1, r);
      } else {
        assert p1 == [];
      }
      assert forall i :: 1 <= i < |p| ==> p[i] == p1[i - 1];
    }
  }

  /** A polynomial with as many roots as coefficients is zero. */
  lemma {:induction false} TooManyRoots(p: poly, xs: seq<byte>)
    requires Distinct(xs) && |p| <= |xs|
    requires forall i :: 0 <= i < |xs| ==> Eval(p, xs[i]) == 0
    ensures IsZero(p)
    decreases |p|
  {
    if p != [] {
      var n := |xs| - 1;
      var zs, r, q := xs[..n], xs[n], DivideBy(p, xs[n]);
      forall i | 0 <= i < n
        ensures Eval(q, zs[i]) == 0
      {
        RootOfQuotient(p, r, zs[i]);
      }
      TooManyRoots(q, zs);
      ZeroDivides(p, r);
    }
  }

  lemma RootOfQuotient(p: poly, r: byte, x: byte)
    requires x != r && Eval(p, r) == 0 && Eval(p, x) == 0
    ensures Eval(DivideBy(p, r), x) == 0
  {
    hide *;
    Division(p, r, x);
    XorZero(Mul(Xor(x, r), Eval(DivideBy(p, r), x)));
    MulCancel(Xor(x, r), Eval(DivideBy(p, r), x));
    XorCancel(x, r);
  }

  function Add(p: poly, q: poly): (s: poly)
    requires |p| <= |q|
    ensures |s| == |q|
  {
    if p == [] then q else [Xor(p[0], q[0])] + Add(p[1..], q[1..])
  }

  lemma {:induction false} EvalAdd(p: poly, q: poly, x: byte)
    requires |p| <= |q|
    ensures Eval(Add(p, q), x) == Xor(Eval(p, x), Eval(q, x))
  {
    XorZero(Eval(q, x));
    hide Mul, Xor;
    if p != [] {
      EvalAdd(p[1..], q[1..], x);
      assert Add(p, q)[1..] == Add(p[1..], q[1..]);
      MulXorLeft(Eval(p[1..], x), Eval(q[1..], x), x);
      XorSwap(p[0], q[0], Mul(Eval(p[1..], x), x), Mul(Eval(q[1..], x), x));
    }
  }

  function Scale(c: byte, p: poly): (s: poly)
    ensures |s| == |p|
  {
    if p == [] then [] else [Mul(c, p[0])] + Scale(c, p[1..])
  }

  lemma {:induction false} EvalScale(c: byte, p: poly, x: byte)
    ensures Eval(Scale(c, p), x) == Mul(c, Eval(p, x))
  {
    MulByZero(c);
    hide Mul, Xor;
    if p != [] {
      EvalScale(c, p[1..], x);
      assert Scale(c, p)[1..] == Scale(c, p[1..]);
      MulAssoc(c, Eval(p[1..], x), x);
      MulXorRight(c, p[0], Mul(Eval(p[1..], x), x));
    }
  }

  /** Newton's fit: one more coefficient for every point. */
  function Fit(xs: seq<byte>, ys: seq<byte>): (p: poly)
    requires |xs| == |ys|
    ensures |p| == |xs|
  {
    if xs == [] then []
    else
      var n := |xs| - 1;
      var p, v := Fit(xs[..n], ys[..n]), Vanishing(xs[..n]);
      Add(p, Scale(Quotient(Xor(ys[n], Eval(p, xs[n])), Eval(v, xs[n])), v))
  }

  lemma {:induction false} FitMeetsValues(xs: seq<byte>, ys: seq<byte>, k: nat)
    requires |xs| == |ys| && Distinct(xs) && k < |xs|
    ensures Eval(Fit(xs, ys), xs[k]) == ys[k]
  {
    hide Mul, Xor, Eval;
    var n := |xs| - 1;
    var zs, x := xs[..n], xs[k];
    var p, v := Fit(zs, ys[..n]), Vanishing(zs);
    var c := Quotient(Xor(ys[n], Eval(p, xs[n])), Eval(v, xs[n]));
    assert Fit(xs, ys) == Add(p, Scale(c, v));
    assert x in zs <==> k < n by {
      assert k < n ==> zs[k] == x;
    }
    VanishingRoots(zs, x);
    MulByZero(c);
    if k < n {
      FitMeetsValues(zs, ys[..n], k);
    } else {
      QuotientUndoesMul(Xor(ys[n], Eval(p, xs[n])), Eval(v, xs[n]));
    }
    hide *;
    EvalAdd(p, Scale(c, v), x);
    EvalScale(c, v, x);
    XorZero(ys[k]);
    XorComm(Xor(ys[k], Eval(p, x)), Eval(p, x));
    XorCancel(ys[k], Eval(p, x));
  }
}

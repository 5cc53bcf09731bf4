// Polynomials over GF(256): evaluation, division by a root, the root bound,
// and interpolation through the sums the browser computes.

module Polynomial {
  import opened Collections
  import opened Field

  // Coefficients, the constant one first.
  type Poly = seq<Byte>

  function Eval(p: Poly, x: Byte): Byte {
    if p == [] then 0 else GfAdd(p[0], GfMul(x, Eval(p[1..], x)))
  }

  predicate AllZero(p: Poly) {
    forall i :: 0 <= i < |p| ==> p[i] == 0
  }

  predicate Agree(p: Poly, xs: seq<Byte>, ys: seq<Byte>) {
    |xs| == |ys| && forall i :: 0 <= i < |xs| ==> Eval(p, xs[i]) == ys[i]
  }

  // ---------------------------------------------------------------------
  // Algebra
  // ---------------------------------------------------------------------

  lemma DistributesLeft(a: Byte, b: Byte, c: Byte)
    ensures GfMul(GfAdd(a, b), c) == GfAdd(GfMul(a, c), GfMul(b, c))
  {
    hide *;
    MulCommutes(GfAdd(a, b), c); MulCommutes(a, c); MulCommutes(b, c);
    MulDistributes(c, a, b);
  }

  lemma MulSwap(a: Byte, b: Byte, c: Byte)
    ensures GfMul(a, GfMul(b, c)) == GfMul(b, GfMul(a, c))
  {
    hide *;
    MulAssociates(a, b, c); MulAssociates(b, a, c); MulCommutes(a, b);
  }

  lemma AddCancels(a: Byte, b: Byte)
    ensures GfAdd(a, b) == 0 ==> a == b
    ensures GfAdd(GfAdd(a, b), b) == a
  {
    assert (a ^ b) ^ b == a;
  }

  lemma MulCancels(a: Byte, b: Byte, c: Byte)
    requires c != 0 && GfMul(a, c) == GfMul(b, c)
    ensures a == b
  {
    hide *;
    DistributesLeft(a, b, c);
    AddLaws(GfMul(a, c), 0, 0);
    if GfAdd(a, b) != 0 { MulNonzero(GfAdd(a, b), c); }
    AddCancels(a, b);
  }

  lemma QuotientFactors(a: Byte, b: Byte)
    requires b != 0
    ensures Quotient(a, b) == GfMul(a, Quotient(1, b))
  {
    hide *;
    DivInverts(a, b); DivInverts(1, b);
    MulAssociates(a, Quotient(1, b), b);
    MulOne(a);
    MulCancels(Quotient(a, b), GfMul(a, Quotient(1, b)), b);
  }

  // ---------------------------------------------------------------------
  // Evaluation
  // ---------------------------------------------------------------------

  lemma EvalStep(p: Poly, x: Byte)
    ensures p == [] ==> Eval(p, x) == 0
    ensures p != [] ==> Eval(p, x) == GfAdd(p[0], GfMul(x, Eval(p[1..], x)))
  {}

  lemma EvalAtZero(p: Poly)
    requires p != []
    ensures Eval(p, 0) == p[0]
  {
    hide *;
    EvalStep(p, 0);
    MulCommutes(0, Eval(p[1..], 0)); MulOne(Eval(p[1..], 0));
    AddLaws(p[0], 0, 0);
  }

  lemma EvalConstant(c: Byte, x: Byte)
    ensures Eval([c], x) == c
  {
    hide *;
    EvalStep([c], x); EvalStep([c][1..], x);
    MulOne(x); AddLaws(c, 0, 0);
  }

  // A further, higher coefficient adds its term c * x^n.
  lemma {:induction false} EvalSnoc(p: Poly, c: Byte, x: Byte)
    ensures Eval(p + [c], x) == GfAdd(Eval(p, x), GfMul(c, GfPow(x, |p|)))
  {
    hide *;
    if p == [] {
      assert p + [c] == [c];
      EvalConstant(c, x); EvalStep(p, x);
      PowStep(x, 0); MulOne(c); AddLaws(c, 0, 0);
    } else {
      var t := p[1..];
      var e, u := Eval(t, x), GfMul(c, GfPow(x, |t|));
      EvalSnoc(t, c, x);
      EvalStep(p + [c], x); EvalStep(p, x);
      assert (p + [c])[1..] == t + [c];
      MulDistributes(x, e, u);
      AddLaws(p[0], GfMul(x, e), GfMul(x, u));
      PowStep(x, |t|);
      MulSwap(x, c, GfPow(x, |t|)); MulCommutes(x, GfPow(x, |t|));
    }
  }

  function PolyAdd(p: Poly, q: Poly): (r: Poly)
    requires |p| == |q|
    ensures |r| == |p|
  {
    seq(|p|, i requires 0 <= i < |p| => GfAdd(p[i], q[i]))
  }

  lemma PolyAddTail(p: Poly, q: Poly)
    requires |p| == |q| > 0
    ensures PolyAdd(p, q)[0] == GfAdd(p[0], q[0])
    ensures PolyAdd(p, q)[1..] == PolyAdd(p[1..], q[1..])
  {
    hide GfAdd;
  }

  lemma {:induction false} EvalAdd(p: Poly, q: Poly, x: Byte)
    requires |p| == |q|
    ensures Eval(PolyAdd(p, q), x) == GfAdd(Eval(p, x), Eval(q, x))
  {
    hide *;
    EvalStep(p, x); EvalStep(q, x); EvalStep(PolyAdd(p, q), x);
    if p == [] {
      AddLaws(0, 0, 0);
    } else {
      PolyAddTail(p, q);
      EvalAdd(p[1..], q[1..], x);
      var e, f := Eval(p[1..], x), Eval(q[1..], x);
      MulDistributes(x, e, f);
      AddSwap(p[0], q[0], GfMul(x, e), GfMul(x, f));
    }
  }

  function Scale(c: Byte, p: Poly): (r: Poly)
    ensures |r| == |p|
  {
    seq(|p|, i requires 0 <= i < |p| => GfMul(c, p[i]))
  }

  lemma ScaleTail(c: Byte, p: Poly)
    requires p != []
    ensures Scale(c, p)[0] == GfMul(c, p[0])
    ensures Scale(c, p)[1..] == Scale(c, p[1..])
  {
    hide GfMul;
  }

  lemma {:induction false} EvalScale(c: Byte, p: Poly, x: Byte)
    ensures Eval(Scale(c, p), x) == GfMul(c, Eval(p, x))
  {
    hide *;
    EvalStep(p, x); EvalStep(Scale(c, p), x);
    if p == [] {
      MulOne(c);
    } else {
      ScaleTail(c, p);
      EvalScale(c, p[1..], x);
      var e := Eval(p[1..], x);
      MulDistributes(c, p[0], GfMul(x, e));
      MulSwap(x, c, e);
    }
  }

  // ---------------------------------------------------------------------
  // Roots
  // ---------------------------------------------------------------------

  // Synthetic division: the quotient of p by the linear factor of r.
  function Deflate(p: Poly, r: Byte): (q: Poly)
    requires p != []
    ensures |q| == |p| - 1
  {
    if |p| == 1 then [] else [Eval(p[1..], r)] + Deflate(p[1..], r)
  }

  lemma DivisionAlgebra(c: Byte, x: Byte, r: Byte, d: Byte, q: Byte, a: Byte)
    requires d == GfAdd(x, r)
    ensures GfAdd(c, GfMul(x, GfAdd(GfMul(d, q), a)))
         == GfAdd(GfMul(d, GfAdd(a, GfMul(x, q))), GfAdd(c, GfMul(r, a)))
  {
    hide *;
    MulDistributes(x, GfMul(d, q), a);
    MulDistributes(d, a, GfMul(x, q));
    DistributesLeft(x, r, a);
    MulSwap(x, d, q);
    Rearrange(c, GfMul(d, GfMul(x, q)), GfMul(x, a), GfMul(r, a));
  }

  lemma Rearrange(c: Byte, u: Byte, v: Byte, w: Byte)
    ensures GfAdd(c, GfAdd(u, v)) == GfAdd(GfAdd(GfAdd(v, w), u), GfAdd(c, w))
  {
    assert c ^ (u ^ v) == ((v ^ w) ^ u) ^ (c ^ w);
  }

  lemma {:induction false} DeflateDivides(p: Poly, r: Byte, x: Byte)
    requires p != []
    ensures Eval(p, x) == GfAdd(GfMul(GfAdd(x, r), Eval(Deflate(p, r), x)), Eval(p, r))
  {
    var t, d := p[1..], GfAdd(x, r);
    if t == [] {
      assert p == [p[0]];
      ConstantCase(p[0], r, x);
    } else {
      DeflateDivides(t, r, x);
      var q, a := Deflate(t, r), Eval(t, r);
      assert Deflate(p, r) == [a] + q;
      hide *;
      assert ([a] + q)[1..] == q;
      EvalStep(p, x); EvalStep(p, r); EvalStep([a] + q, x);
      DivisionAlgebra(p[0], x, r, d, Eval(q, x), a);
    }
  }

  lemma ConstantCase(c: Byte, r: Byte, x: Byte)
    ensures Deflate([c], r) == []
    ensures Eval([c], x) == GfAdd(GfMul(GfAdd(x, r), Eval([], x)), Eval([c], r))
  {
    hide Eval, GfMul, GfAdd;
    EvalConstant(c, x); EvalConstant(c, r); EvalStep([], x);
    MulOne(GfAdd(x, r)); AddLaws(c, 0, 0);
  }

  // If r is a root and the quotient vanishes, so does every coefficient.
  lemma {:induction false} DeflateZero(p: Poly, r: Byte)
    requires p != [] && Eval(p, r) == 0 && AllZero(Deflate(p, r))
    ensures AllZero(p)
  {
    var t := p[1..];
    assert t != [] ==> Deflate(p, r) == [Eval(t, r)] + Deflate(t, r);
    hide Eval, Deflate, GfAdd, GfMul;
    EvalStep(p, r); EvalStep(t, r);
    if t != [] {
      assert Deflate(p, r)[0] == Eval(t, r);
      assert Deflate(p, r)[1..] == Deflate(t, r);
      DeflateZero(t, r);
    }
    assert Eval(t, r) == 0;
    MulOne(r); AddLaws(p[0], 0, 0);
    assert p == [p[0]] + t;
  }

  // A polynomial with at least as many distinct roots as coefficients is zero:
  // one of degree d that is not zero has at most d roots.
  lemma {:induction false} RootBound(p: Poly, xs: seq<Byte>)
    requires Distinct(xs) && |p| <= |xs|
    requires forall i :: 0 <= i < |xs| ==> Eval(p, xs[i]) == 0
    ensures AllZero(p)
    decreases |p|
  {
    hide Eval, Deflate, GfAdd, GfMul;
    if p != [] {
      var r, rest := xs[0], xs[1..];
      var q := Deflate(p, r);
      forall i | 0 <= i < |rest| ensures Eval(q, rest[i]) == 0 {
        var x := rest[i];
        assert x == xs[i + 1] && x != r;
        DeflateDivides(p, r, x);
        AddLaws(GfMul(GfAdd(x, r), Eval(q, x)), 0, 0);
        AddCancels(x, r);
        if Eval(q, x) != 0 { MulNonzero(GfAdd(x, r), Eval(q, x)); }
      }
      RootBound(q, rest);
      DeflateZero(p, r);
    }
  }

  // Values at as many distinct points as coefficients determine a polynomial.
  lemma Unique(p: Poly, q: Poly, xs: seq<Byte>, ys: seq<Byte>)
    requires |p| == |q| <= |xs| && Distinct(xs)
    requires Agree(p, xs, ys) && Agree(q, xs, ys)
    ensures p == q
  {
    hide Eval, GfAdd;
    var d := PolyAdd(p, q);
    forall i | 0 <= i < |xs| ensures Eval(d, xs[i]) == 0 {
      EvalAdd(p, q, xs[i]);
      AddLaws(ys[i], 0, 0);
    }
    RootBound(d, xs);
    forall i | 0 <= i < |p| ensures p[i] == q[i] {
      assert d[i] == GfAdd(p[i], q[i]);
      AddCancels(p[i], q[i]);
    }
  }

  // ---------------------------------------------------------------------
  // Interpolation
  // ---------------------------------------------------------------------

  // The loop over m in reconstructVMK: the products of the other indices, and
  // of their differences from index j.
  function Numerator(xs: seq<Byte>, j: nat, m: nat): Byte
    requires m <= |xs|
  {
    if m == 0 then 1
    else if m - 1 == j then Numerator(xs, j, m - 1)
    else GfMul(Numerator(xs, j, m - 1), xs[m - 1])
  }

  function Denominator(xs: seq<Byte>, j: nat, m: nat): Byte
    requires j < |xs| && m <= |xs|
  {
    if m == 0 then 1
    else if m - 1 == j then Denominator(xs, j, m - 1)
    else GfMul(Denominator(xs, j, m - 1), GfAdd(xs[m - 1], xs[j]))
  }

  lemma {:induction false} DenominatorNonzero(xs: seq<Byte>, j: nat, m: nat)
    requires Distinct(xs) && j < |xs| && m <= |xs|
    ensures Denominator(xs, j, m) != 0
  {
    hide GfMul, GfAdd;
    if m != 0 {
      DenominatorNonzero(xs, j, m - 1);
      if m - 1 != j {
        AddCancels(xs[m - 1], xs[j]);
        MulNonzero(Denominator(xs, j, m - 1), GfAdd(xs[m - 1], xs[j]));
      }
    }
  }

  // The value at 0 of the polynomial that is 1 at index j and 0 at the others.
  function Cofactor(xs: seq<Byte>, j: nat): Byte
    requires Distinct(xs) && j < |xs|
  {
    var den := Denominator(xs, j, |xs|);
    assert den != 0 by { DenominatorNonzero(xs, j, |xs|); }
    Quotient(Numerator(xs, j, |xs|), den)
  }

  // The loop over j in reconstructVMK, for one byte position.
  function Lagrange(xs: seq<Byte>, ys: seq<Byte>, j: nat): Byte
    requires Distinct(xs) && j <= |xs| == |ys|
  {
    if j == 0 then 0
    else GfAdd(Lagrange(xs, ys, j - 1), GfMul(ys[j - 1], Cofactor(xs, j - 1)))
  }

  // The product of p and the linear factor of r.
  function Inflate(p: Poly, r: Byte): (q: Poly)
    ensures |q| == |p| + 1
  {
    PolyAdd([0] + p, Scale(r, p) + [0])
  }

  lemma EvalInflate(p: Poly, r: Byte, x: Byte)
    ensures Eval(Inflate(p, r), x) == GfMul(GfAdd(x, r), Eval(p, x))
  {
    hide Eval, GfAdd, GfMul, GfPow, PolyAdd, Scale;
    EvalAdd([0] + p, Scale(r, p) + [0], x);
    EvalStep([0] + p, x);
    assert ([0] + p)[1..] == p;
    EvalSnoc(Scale(r, p), 0, x);
    EvalScale(r, p, x);
    MulCommutes(0, GfPow(x, |p|)); MulOne(GfPow(x, |p|));
    AddLaws(GfMul(x, Eval(p, x)), 0, 0); AddLaws(GfMul(r, Eval(p, x)), 0, 0);
    DistributesLeft(x, r, Eval(p, x));
  }

  // The polynomial that vanishes at the first m indices other than index j.
  function Basis(xs: seq<Byte>, j: nat, m: nat): (p: Poly)
    requires m <= |xs|
    ensures |p| == if j < m then m else m + 1
  {
    if m == 0 then [1]
    else if m - 1 == j then Basis(xs, j, m - 1)
    else Inflate(Basis(xs, j, m - 1), xs[m - 1])
  }

  lemma {:induction false} BasisValues(xs: seq<Byte>, j: nat, m: nat)
    requires j < |xs| && m <= |xs|
    ensures Eval(Basis(xs, j, m), 0) == Numerator(xs, j, m)
    ensures Eval(Basis(xs, j, m), xs[j]) == Denominator(xs, j, m)
  {
    hide Eval, GfAdd, GfMul, Inflate;
    if m == 0 {
      EvalConstant(1, 0); EvalConstant(1, xs[j]);
    } else {
      BasisValues(xs, j, m - 1);
      if m - 1 != j {
        var b, x := Basis(xs, j, m - 1), xs[m - 1];
        EvalInflate(b, x, 0); EvalInflate(b, x, xs[j]);
        AddLaws(x, xs[j], 0);
        MulCommutes(x, Numerator(xs, j, m - 1)); MulCommutes(GfAdd(x, xs[j]), Denominator(xs, j, m - 1));
      }
    }
  }

  lemma {:induction false} BasisRoots(xs: seq<Byte>, j: nat, m: nat, i: nat)
    requires i < m <= |xs| && i != j
    ensures Eval(Basis(xs, j, m), xs[i]) == 0
  {
    hide Eval, GfAdd, GfMul, Inflate;
    if m - 1 == j {
      BasisRoots(xs, j, m - 1, i);
    } else {
      var b, x := Basis(xs, j, m - 1), xs[m - 1];
      EvalInflate(b, x, xs[i]);
      if i == m - 1 {
        AddLaws(x, 0, 0);
        MulCommutes(0, Eval(b, x)); MulOne(Eval(b, x));
      } else {
        BasisRoots(xs, j, m - 1, i);
        MulOne(GfAdd(xs[i], x));
      }
    }
  }

  // The weight of basis polynomial j, chosen so that the sum takes value ys[j].
  function Weight(xs: seq<Byte>, ys: seq<Byte>, j: nat): Byte
    requires Distinct(xs) && j < |xs| == |ys|
  {
    DenominatorNonzero(xs, j, |xs|);
    GfMul(ys[j], Quotient(1, Denominator(xs, j, |xs|)))
  }

  function Interpolant(xs: seq<Byte>, ys: seq<Byte>, j: nat): (p: Poly)
    requires Distinct(xs) && j <= |xs| == |ys|
    ensures |p| == |xs|
  {
    if j == 0 then seq(|xs|, _ => 0)
    else PolyAdd(Interpolant(xs, ys, j - 1), Scale(Weight(xs, ys, j - 1), Basis(xs, j - 1, |xs|)))
  }

  lemma InterpolantStep(xs: seq<Byte>, ys: seq<Byte>, j: nat, x: Byte)
    requires Distinct(xs) && 0 < j <= |xs| == |ys|
    ensures Eval(Interpolant(xs, ys, j), x)
         == GfAdd(Eval(Interpolant(xs, ys, j - 1), x),
                  GfMul(Weight(xs, ys, j - 1), Eval(Basis(xs, j - 1, |xs|), x)))
  {
    hide Eval, GfAdd, GfMul, PolyAdd, Scale, Weight, Basis;
    var w, b := Weight(xs, ys, j - 1), Basis(xs, j - 1, |xs|);
    EvalAdd(Interpolant(xs, ys, j - 1), Scale(w, b), x);
    EvalScale(w, b, x);
  }

  lemma {:induction false} EvalZeros(n: nat, x: Byte)
    ensures Eval(seq(n, _ => 0), x) == 0
  {
    hide GfAdd, GfMul, Eval;
    var p: Poly := seq(n, _ => 0);
    EvalStep(p, x);
    if n != 0 {
      assert p[1..] == seq(n - 1, _ => 0);
      EvalZeros(n - 1, x);
      MulOne(x); AddLaws(0, 0, 0);
    }
  }

  // At 0 the interpolant is the browser's Lagrange sum.
  lemma {:induction false} InterpolantAtZero(xs: seq<Byte>, ys: seq<Byte>, j: nat)
    requires Distinct(xs) && j <= |xs| == |ys|
    ensures Eval(Interpolant(xs, ys, j), 0) == Lagrange(xs, ys, j)
  {
    hide Eval, GfAdd, GfMul, Quotient, PolyAdd, Scale, Basis, Numerator, Denominator;
    if j == 0 {
      EvalZeros(|xs|, 0);
    } else {
      var i := j - 1;
      InterpolantAtZero(xs, ys, i);
      InterpolantStep(xs, ys, j, 0);
      BasisValues(xs, i, |xs|);
      DenominatorNonzero(xs, i, |xs|);
      var n, d := Numerator(xs, i, |xs|), Denominator(xs, i, |xs|);
      QuotientFactors(n, d);
      MulAssociates(ys[i], Quotient(1, d), n);
      MulCommutes(n, Quotient(1, d));
    }
  }

  // After j rounds the interpolant takes the first j values and vanishes at
  // the other indices.
  lemma {:induction false} InterpolantAt(xs: seq<Byte>, ys: seq<Byte>, j: nat, i: nat)
    requires Distinct(xs) && j <= |xs| == |ys| && i < |xs|
    ensures Eval(Interpolant(xs, ys, j), xs[i]) == if i < j then ys[i] else 0
  {
    hide Eval, GfAdd, GfMul, Quotient, PolyAdd, Scale, Basis, Numerator, Denominator;
    if j == 0 {
      EvalZeros(|xs|, xs[i]);
    } else {
      var l := j - 1;
      var w := Weight(xs, ys, l);
      InterpolantAt(xs, ys, l, i);
      InterpolantStep(xs, ys, j, xs[i]);
      if i == l {
        BasisValues(xs, l, |xs|);
        DenominatorNonzero(xs, l, |xs|);
        var d := Denominator(xs, l, |xs|);
        MulAssociates(ys[l], Quotient(1, d), d);
        DivInverts(1, d); MulOne(ys[l]);
        AddLaws(ys[l], 0, 0);
      } else {
        BasisRoots(xs, l, |xs|, i);
        MulOne(w);
        AddLaws(if i < l then ys[i] else 0, 0, 0);
      }
    }
  }

  lemma InterpolantAgrees(xs: seq<Byte>, ys: seq<Byte>)
    requires Distinct(xs) && |xs| == |ys|
    ensures Agree(Interpolant(xs, ys, |xs|), xs, ys)
  {
    hide Eval, Interpolant;
    forall i | 0 <= i < |xs| ensures Eval(Interpolant(xs, ys, |xs|), xs[i]) == ys[i] {
      InterpolantAt(xs, ys, |xs|, i);
    }
  }

  // The Lagrange sum recovers the constant coefficient of any polynomial from
  // its values at as many distinct points as it has coefficients.
  lemma LagrangeRecovers(p: Poly, xs: seq<Byte>, ys: seq<Byte>)
    requires Distinct(xs) && |p| == |xs| > 0 && Agree(p, xs, ys)
    ensures Lagrange(xs, ys, |xs|) == p[0]
  {
    hide Eval, Lagrange, Interpolant;
    var q := Interpolant(xs, ys, |xs|);
    InterpolantAgrees(xs, ys);
    Unique(p, q, xs, ys);
    InterpolantAtZero(xs, ys, |xs|);
    EvalAtZero(p);
  }

  // For any values there is exactly one polynomial with as many coefficients.
  lemma InterpolationExists(xs: seq<Byte>, ys: seq<Byte>) returns (p: Poly)
    requires Distinct(xs) && |xs| == |ys|
    ensures |p| == |xs| && Agree(p, xs, ys)
    ensures forall q: Poly :: |q| == |xs| && Agree(q, xs, ys) ==> q == p
  {
    hide Eval, Interpolant;
    p := Interpolant(xs, ys, |xs|);
    InterpolantAgrees(xs, ys);
    forall q: Poly | |q| == |xs| && Agree(q, xs, ys) ensures q == p {
      Unique(p, q, xs, ys);
    }
  }
}

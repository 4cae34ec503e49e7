/// Polynomials over the field of bytes: evaluation, the root bound and interpolation.
module Polynomials {
  import opened Core
  import opened GF256

  /// Coefficients are listed from the constant term up; `|p|` bounds the degree from above.
  function Eval(p: seq<byte>, x: byte): byte {
    if p == [] then 0 else Add(p[0], Mul(x, Eval(p[1..], x)))
  }

  ghost predicate Distinct(xs: seq<byte>) {
    forall i, j :: 0 <= i < j < |xs| ==> xs[i] != xs[j]
  }

  // ----- the root bound -----

  /// The quotient of `p` by (x - r).
  function Quotient(p: seq<byte>, r: byte): (q: seq<byte>)
    ensures |q| == if |p| <= 1 then 0 else |p| - 1
  {
    if |p| <= 1 then [] else [Eval(p[1..], r)] + Quotient(p[1..], r)
  }

  lemma {:induction false} Cancel(a: byte, b: byte, c: byte, d: byte)
    ensures Add(Add(a, c), Add(Add(b, c), d)) == Add(a, Add(b, d))
  {
    hide Add;
    AddLaws(b, c, d);
    AddLaws(c, b, d);
    AddLaws(a, c, Add(c, Add(b, d)));
    AddLaws(c, c, Add(b, d));
    AddLaws(Add(b, d), c, c);
  }

  lemma {:induction false} DivisionStep(c: byte, x: byte, r: byte, tx: byte, tr: byte, q: byte)
    requires tx == Add(tr, Mul(Add(x, r), q))
    ensures Add(c, Mul(x, tx)) == Add(Add(c, Mul(r, tr)), Mul(Add(x, r), Add(tr, Mul(x, q))))
  {
    hide Add, Mul;
    var d := Mul(Add(x, r), Mul(x, q));
    MulAdds(x, tr, Mul(Add(x, r), q));
    MulAdds(Add(x, r), tr, Mul(x, q));
    MulAdds(tr, x, r);
    MulLaws(x, Add(x, r), q);
    MulLaws(Add(x, r), x, q);
    Cancel(c, Mul(x, tr), Mul(r, tr), d);
  }

  /// Division with remainder by a linear factor.
  lemma {:induction false} Division(p: seq<byte>, r: byte, x: byte)
    ensures Eval(p, x) == Add(Eval(p, r), Mul(Add(x, r), Eval(Quotient(p, r), x)))
  {
    hide Add, Mul;
    if |p| <= 1 {
      MulLaws(Add(x, r), 0, 0);
      MulLaws(x, 0, 0);
      MulLaws(r, 0, 0);
      AddLaws(Eval(p, r), 0, 0);
      assert |p| == 1 ==> Eval(p[1..], x) == 0 && Eval(p[1..], r) == 0;
    } else {
      var t, q := p[1..], Quotient(p, r);
      Division(t, r, x);
      assert q[1..] == Quotient(t, r);
      DivisionStep(p[0], x, r, Eval(t, x), Eval(t, r), Eval(Quotient(t, r), x));
    }
  }

  /// A polynomial with at least as many distinct roots as coefficients is zero everywhere.
  lemma {:induction false} RootBound(p: seq<byte>, roots: seq<byte>, x: byte)
    requires Distinct(roots) && |roots| >= |p|
    requires forall i :: 0 <= i < |roots| ==> Eval(p, roots[i]) == 0
    ensures Eval(p, x) == 0
    decreases |p|
  {
    if p != [] {
      var r, rest := roots[0], roots[1..];
      var q := Quotient(p, r);
      forall i | 0 <= i < |rest| ensures Eval(q, rest[i]) == 0 {
        hide Add, Mul, Eval;
        assert rest[i] == roots[i + 1];
        Division(p, r, rest[i]);
        AddLaws(rest[i], r, r);
        AddLaws(Mul(Add(rest[i], r), Eval(q, rest[i])), 0, 0);
        InverseLaw(Add(rest[i], r), Eval(q, rest[i]));
      }
      RootBound(q, rest, x);
      hide Add, Mul, Eval;
      Division(p, r, x);
      MulLaws(Add(x, r), 0, 0);
      AddLaws(0, 0, 0);
    }
  }

  // ----- building polynomials -----

  function Sum(p: seq<byte>, q: seq<byte>): (s: seq<byte>)
    requires |p| == |q|
    ensures |s| == |p|
  {
    if p == [] then [] else [Add(p[0], q[0])] + Sum(p[1..], q[1..])
  }

  function Scale(c: byte, p: seq<byte>): (s: seq<byte>)
    ensures |s| == |p|
  {
    if p == [] then [] else [Mul(c, p[0])] + Scale(c, p[1..])
  }

  lemma {:induction false} Interchange(a: byte, b: byte, c: byte, d: byte)
    ensures Add(Add(a, b), Add(c, d)) == Add(Add(a, c), Add(b, d))
  {
    hide Add;
    AddLaws(a, b, Add(c, d));
    AddLaws(b, c, d);
    AddLaws(c, b, d);
    AddLaws(a, c, Add(b, d));
  }

  lemma {:induction false} EvalSum(p: seq<byte>, q: seq<byte>, x: byte)
    requires |p| == |q|
    ensures Eval(Sum(p, q), x) == Add(Eval(p, x), Eval(q, x))
  {
    hide Add, Mul;
    if p == [] {
      AddLaws(0, 0, 0);
    } else {
      EvalSum(p[1..], q[1..], x);
      assert Sum(p, q)[1..] == Sum(p[1..], q[1..]);
      MulAdds(x, Eval(p[1..], x), Eval(q[1..], x));
      Interchange(p[0], q[0], Mul(x, Eval(p[1..], x)), Mul(x, Eval(q[1..], x)));
    }
  }

  lemma {:induction false} EvalScale(c: byte, p: seq<byte>, x: byte)
    ensures Eval(Scale(c, p), x) == Mul(c, Eval(p, x))
  {
    hide Add, Mul;
    if p == [] {
      MulLaws(c, 0, 0);
    } else {
      var t := Eval(p[1..], x);
      EvalScale(c, p[1..], x);
      assert Scale(c, p)[1..] == Scale(c, p[1..]);
      MulLaws(x, c, t);
      MulLaws(c, x, t);
      MulAdds(c, p[0], Mul(x, t));
    }
  }

  lemma {:induction false} EvalPadded(p: seq<byte>, x: byte)
    ensures Eval(p + [0], x) == Eval(p, x)
  {
    hide Add, Mul;
    if p == [] {
      assert (p + [0])[1..] == [];
      MulLaws(x, 0, 0);
      AddLaws(0, 0, 0);
    } else {
      EvalPadded(p[1..], x);
      assert (p + [0])[1..] == p[1..] + [0];
    }
  }

  /// The product of `p` and (x - r).
  function TimesRoot(p: seq<byte>, r: byte): (q: seq<byte>)
    ensures |q| == |p| + 1
  {
    Sum([0] + p, Scale(r, p) + [0])
  }

  lemma {:induction false} EvalTimesRoot(p: seq<byte>, r: byte, x: byte)
    ensures Eval(TimesRoot(p, r), x) == Mul(Add(x, r), Eval(p, x))
  {
    hide Add, Mul, Sum, Scale;
    EvalSum([0] + p, Scale(r, p) + [0], x);
    EvalPadded(Scale(r, p), x);
    EvalScale(r, p, x);
    assert ([0] + p)[1..] == p;
    AddLaws(0, 0, 0);
    AddLaws(Mul(x, Eval(p, x)), 0, 0);
    MulAdds(Eval(p, x), x, r);
  }

  /// The product of (x - r) over the roots `xs`.
  function Master(xs: seq<byte>): (p: seq<byte>)
    ensures |p| == |xs| + 1
  {
    if xs == [] then [1] else TimesRoot(Master(xs[..|xs| - 1]), xs[|xs| - 1])
  }

  lemma {:induction false} MasterVanishesExactly(xs: seq<byte>, x: byte)
    ensures Eval(Master(xs), x) == 0 <==> x in xs
  {
    hide Add, Mul, TimesRoot;
    if xs == [] {
      assert [1 as byte][1..] == [];
      MulLaws(x, 0, 0);
      AddLaws(1, 0, 0);
    } else {
      var init, last := xs[..|xs| - 1], xs[|xs| - 1];
      assert xs == init + [last];
      MasterVanishesExactly(init, x);
      EvalTimesRoot(Master(init), last, x);
      AddLaws(x, last, 0);
      MulLaws(Add(x, last), 0, 0);
      MulLaws(Eval(Master(init), x), 0, 0);
      if x != last {
        InverseLaw(Add(x, last), Eval(Master(init), x));
      }
    }
  }

  /// The polynomial with `|xs|` coefficients that takes the values `ys` at the points `xs`.
  function Through(xs: seq<byte>, ys: seq<byte>): (p: seq<byte>)
    requires |xs| == |ys|
    ensures |p| == |xs|
  {
    if xs == [] then []
    else
      var n := |xs| - 1;
      var base, master := Through(xs[..n], ys[..n]), Master(xs[..n]);
      var c := Mul(Add(ys[n], Eval(base, xs[n])), Inverse(Eval(master, xs[n])));
      Sum(base + [0], Scale(c, master))
  }

  lemma {:induction false} EvalThrough(xs: seq<byte>, ys: seq<byte>, x: byte)
    requires |xs| == |ys| > 0
    ensures var n := |xs| - 1;
      var base, m := Through(xs[..n], ys[..n]), Master(xs[..n]);
      Eval(Through(xs, ys), x)
      == Add(Eval(base, x), Mul(Mul(Add(ys[n], Eval(base, xs[n])), Inverse(Eval(m, xs[n]))), Eval(m, x)))
  {
    hide Add, Mul, Inverse, Sum, Scale, Master, Eval;
    var n := |xs| - 1;
    var base, m := Through(xs[..n], ys[..n]), Master(xs[..n]);
    var c := Mul(Add(ys[n], Eval(base, xs[n])), Inverse(Eval(m, xs[n])));
    EvalSum(base + [0], Scale(c, m), x);
    EvalPadded(base, x);
    EvalScale(c, m, x);
  }

  lemma {:induction false} Correction(y: byte, b: byte, m: byte)
    requires m != 0
    ensures Add(b, Mul(Mul(Add(y, b), Inverse(m)), m)) == y
  {
    hide Add, Mul, Inverse;
    var e := Add(y, b);
    InverseLaw(m, 0);
    MulLaws(e, Inverse(m), m);
    MulLaws(m, Inverse(m), 0);
    MulLaws(e, 0, 0);
    AddLaws(y, b, b);
    AddLaws(b, e, 0);
    AddLaws(b, b, 0);
    AddLaws(y, 0, 0);
  }

  /// Interpolation passes through every given point.
  lemma {:induction false} ThroughHits(xs: seq<byte>, ys: seq<byte>, i: nat)
    requires |xs| == |ys| && Distinct(xs) && i < |xs|
    ensures Eval(Through(xs, ys), xs[i]) == ys[i]
  {
    hide Add, Mul, Inverse, Sum, Scale, Master, Eval, Through;
    var n := |xs| - 1;
    var init := xs[..n];
    var base, m := Through(init, ys[..n]), Master(init);
    EvalThrough(xs, ys, xs[i]);
    MasterVanishesExactly(init, xs[i]);
    if i < n {
      ThroughHits(init, ys[..n], i);
      assert xs[i] == init[i];
      MulLaws(Mul(Add(ys[n], Eval(base, xs[n])), Inverse(Eval(m, xs[n]))), 0, 0);
      AddLaws(Eval(base, xs[i]), 0, 0);
    } else {
      assert xs[n] !in init;
      Correction(ys[n], Eval(base, xs[n]), Eval(m, xs[n]));
    }
  }

  /// Polynomials of fewer than k coefficients that agree at k distinct points agree everywhere.
  lemma {:induction false} AgreeEverywhere(p: seq<byte>, q: seq<byte>, xs: seq<byte>, x: byte)
    requires |p| == |q| <= |xs| && Distinct(xs)
    requires forall i :: 0 <= i < |xs| ==> Eval(p, xs[i]) == Eval(q, xs[i])
    ensures Eval(p, x) == Eval(q, x)
  {
    hide Add, Mul, Sum, Eval;
    var d := Sum(p, q);
    forall i | 0 <= i < |xs| ensures Eval(d, xs[i]) == 0 {
      EvalSum(p, q, xs[i]);
      AddLaws(Eval(p, xs[i]), 0, 0);
    }
    RootBound(d, xs, x);
    EvalSum(p, q, x);
    AddLaws(Eval(p, x), Eval(q, x), 0);
  }
}

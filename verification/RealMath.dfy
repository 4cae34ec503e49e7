/// Exact real arithmetic used by the reputation and prediction models.
module RealMath {
  function Clamp(x: real, lo: real, hi: real): (r: real)
    requires lo <= hi
    ensures lo <= r <= hi
    ensures lo <= x <= hi ==> r == x
    ensures (x <= lo ==> r == lo) && (x >= hi ==> r == hi)
  {
    if x < lo then lo else if x > hi then hi else x
  }

  function Max(x: real, y: real): (r: real)
    ensures r >= x && r >= y && (r == x || r == y)
  {
    if x >= y then x else y
  }

  function Abs(x: real): (r: real)
    ensures r >= 0.0 && (r == x || r == -x)
  {
    if x < 0.0 then -x else x
  }

  function Pow(b: real, n: nat): real {
    if n == 0 then 1.0 else b * Pow(b, n - 1)
  }

  lemma MulAssoc(x: real, y: real, z: real)
    ensures (x * y) * z == x * (y * z)
  {
  }

  lemma MulNonNeg(x: real, y: real)
    requires x >= 0.0 && y >= 0.0
    ensures x * y >= 0.0
  {
  }

  lemma MulPos(x: real, y: real)
    requires x > 0.0 && y > 0.0
    ensures x * y > 0.0
  {
  }

  lemma MulLe(x: real, y: real, z: real)
    requires x <= y && z >= 0.0
    ensures x * z <= y * z
  {
    MulNonNeg(y - x, z);
  }

  /// Multiplying by a positive number keeps the order, both ways.
  lemma Scale(x: real, y: real, h: real)
    requires h > 0.0
    ensures x < y <==> x * h < y * h
  {
    if x < y {
      MulPos(y - x, h);
    } else {
      MulLe(y, x, h);
    }
  }

  lemma Scaled(x: real, y: real, h: real, a: real, b: real)
    requires h > 0.0 && a == x * h && b == y * h
    ensures x < y <==> a < b
  {
    Scale(x, y, h);
  }

  lemma {:induction false} PowAdd(b: real, m: nat, n: nat)
    ensures Pow(b, m + n) == Pow(b, m) * Pow(b, n)
  {
    if m == 0 {
    } else {
      PowAdd(b, m - 1, n);
      var p, q := Pow(b, m - 1), Pow(b, n);
      assert Pow(b, m + n) == b * Pow(b, m - 1 + n);
      MulAssoc(b, p, q);
    }
  }

  lemma {:induction false} PowUnit(b: real, n: nat)
    requires 0.0 < b <= 1.0
    ensures 0.0 < Pow(b, n) <= 1.0
  {
    if n == 0 {
    } else {
      PowUnit(b, n - 1);
      MulUnit(b, Pow(b, n - 1));
    }
  }

  lemma MulUnit(x: real, y: real)
    requires 0.0 < x <= 1.0 && 0.0 < y <= 1.0
    ensures 0.0 < x * y <= 1.0
  {
    MulPos(x, y);
    MulLe(x, 1.0, y);
  }

  /// A longer wait never raises a power of a factor in (0,1].
  lemma {:induction false} PowAntitone(b: real, m: nat, n: nat)
    requires 0.0 < b <= 1.0
    requires m <= n
    ensures Pow(b, n) <= Pow(b, m)
    decreases n - m
  {
    if m < n {
      PowAntitone(b, m, n - 1);
      PowUnit(b, n - 1);
      MulLe(b, 1.0, Pow(b, n - 1));
    }
  }

  lemma {:induction false} PowMul(b: real, m: nat, n: nat)
    ensures Pow(b, m * n) == Pow(Pow(b, m), n)
  {
    if n == 0 {
      assert m * n == 0;
    } else {
      PowMul(b, m, n - 1);
      assert m * n == m + m * (n - 1);
      PowAdd(b, m, m * (n - 1));
    }
  }

  /// The sum of `f` over a finite set. The order in which elements are taken is
  /// unspecified, as the order of a hash map's entries is.
  ghost function SumOver<K(!new)>(keys: set<K>, f: K -> real): real {
    if keys == {} then 0.0
    else
      var k :| k in keys;
      f(k) + SumOver(keys - {k}, f)
  }

  lemma SumOverEmpty<K(!new)>(f: K -> real)
    ensures SumOver({}, f) == 0.0
  {
  }

  /// The sum does not depend on which element is taken first.
  lemma {:induction false} SumOverRemove<K(!new)>(keys: set<K>, f: K -> real, k: K)
    requires k in keys
    ensures SumOver(keys, f) == f(k) + SumOver(keys - {k}, f)
    decreases |keys|
  {
    var first :| first in keys && SumOver(keys, f) == f(first) + SumOver(keys - {first}, f);
    if first != k {
      SumOverRemove(keys - {first}, f, k);
      SumOverRemove(keys - {k}, f, first);
      assert keys - {first} - {k} == keys - {k} - {first};
    }
  }

  lemma SumOverAdd<K(!new)>(keys: set<K>, f: K -> real, k: K)
    requires k !in keys
    ensures SumOver(keys + {k}, f) == SumOver(keys, f) + f(k)
  {
    SumOverRemove(keys + {k}, f, k);
    assert keys + {k} - {k} == keys;
  }

  lemma {:induction false} SumOverCongruent<K(!new)>(keys: set<K>, f: K -> real, g: K -> real)
    requires forall k :: k in keys ==> f(k) == g(k)
    ensures SumOver(keys, f) == SumOver(keys, g)
    decreases |keys|
  {
    if keys != {} {
      var k :| k in keys;
      SumOverRemove(keys, f, k);
      SumOverRemove(keys, g, k);
      SumOverCongruent(keys - {k}, f, g);
    }
  }

  /// Changing `f` at one element changes the sum by exactly that change.
  lemma SumOverUpdate<K(!new)>(keys: set<K>, f: K -> real, g: K -> real, k: K)
    requires k in keys
    requires forall j :: j in keys && j != k ==> f(j) == g(j)
    ensures SumOver(keys, g) == SumOver(keys, f) - f(k) + g(k)
  {
    SumOverRemove(keys, f, k);
    SumOverRemove(keys, g, k);
    SumOverCongruent(keys - {k}, f, g);
  }
}

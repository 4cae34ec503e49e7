/// The field of 256 elements that the erasure code works over: bytes as polynomials over bits,
/// reduced by x^8 + x^4 + x^3 + x^2 + 1.
module GF256 {
  import opened Core

  // ----- on bit vectors -----

  function Plus(a: bv8, b: bv8): bv8 {
    a ^ b
  }

  /// Multiply by x, reducing an overflowing x^8.
  function Double(a: bv8): bv8 {
    Plus(a << 1, When(a >> 7, 0x1D))
  }

  function Half(a: bv8): bv8 {
    a >> 1
  }

  function When(b: bv8, x: bv8): bv8 {
    if b & 1 == 0 then 0 else x
  }

  /// The sum of a * x^i over those of the lowest `n` bits i that are set in `b`.
  function Partial(a: bv8, b: bv8, n: nat): bv8
    decreases n
  {
    if n == 0 then 0 else Plus(When(b, a), Partial(Double(a), Half(b), n - 1))
  }

  function Product(a: bv8, b: bv8): bv8 {
    Partial(a, b, 8)
  }

  lemma {:induction false} Shuffle(a: bv8, b: bv8, c: bv8, d: bv8)
    ensures Plus(Plus(a, b), Plus(c, d)) == Plus(Plus(a, c), Plus(b, d))
    ensures Plus(0, 0) == 0 && Plus(a, 0) == a
  {
  }

  lemma {:induction false} WhenAdds(a: bv8, b: bv8, x: bv8)
    ensures When(Plus(a, b), x) == Plus(When(a, x), When(b, x))
    ensures When(x, Plus(a, b)) == Plus(When(x, a), When(x, b))
    ensures When(0, x) == 0 && When(x, 0) == 0
  {
  }

  lemma {:induction false} ShiftsAdd(a: bv8, b: bv8)
    ensures Plus(a, b) << 1 == Plus(a << 1, b << 1)
    ensures Plus(a, b) >> 7 == Plus(a >> 7, b >> 7)
  {
  }

  lemma {:induction false} DoubleAdds(a: bv8, b: bv8)
    ensures Double(Plus(a, b)) == Plus(Double(a), Double(b))
    ensures Double(0) == 0
  {
    ShiftsAdd(a, b);
    WhenAdds(a >> 7, b >> 7, 0x1D);
    Shuffle(a << 1, b << 1, When(a >> 7, 0x1D), When(b >> 7, 0x1D));
    assert Double(0) == 0;
    hide Plus, When;
  }

  lemma {:induction false} HalfAdds(a: bv8, b: bv8)
    ensures Half(Plus(a, b)) == Plus(Half(a), Half(b))
    ensures Half(0) == 0
  {
  }

  lemma {:induction false} PartialAddsRight(a: bv8, b: bv8, c: bv8, n: nat)
    ensures Partial(a, Plus(b, c), n) == Plus(Partial(a, b, n), Partial(a, c, n))
    decreases n
  {
    hide Plus, Double, Half, When;
    if n == 0 {
      Shuffle(0, 0, 0, 0);
    } else {
      WhenAdds(b, c, a);
      HalfAdds(b, c);
      PartialAddsRight(Double(a), Half(b), Half(c), n - 1);
      Shuffle(When(b, a), When(c, a), Partial(Double(a), Half(b), n - 1), Partial(Double(a), Half(c), n - 1));
    }
  }

  lemma {:induction false} PartialAddsLeft(a: bv8, c: bv8, b: bv8, n: nat)
    ensures Partial(Plus(a, c), b, n) == Plus(Partial(a, b, n), Partial(c, b, n))
    decreases n
  {
    hide Plus, Double, Half, When;
    if n == 0 {
      Shuffle(0, 0, 0, 0);
    } else {
      DoubleAdds(a, c);
      WhenAdds(a, c, b);
      PartialAddsLeft(Double(a), Double(c), Half(b), n - 1);
      Shuffle(When(b, a), When(b, c), Partial(Double(a), Half(b), n - 1), Partial(Double(c), Half(b), n - 1));
    }
  }

  lemma {:induction false} WhenDoubles(x: bv8, a: bv8)
    ensures When(x, Double(a)) == Double(When(x, a))
  {
    DoubleAdds(0, 0);
    hide Double;
  }

  lemma {:induction false} PartialDoubles(a: bv8, b: bv8, n: nat)
    ensures Partial(Double(a), b, n) == Double(Partial(a, b, n))
    decreases n
  {
    hide Plus, Double, Half, When;
    if n == 0 {
      DoubleAdds(0, 0);
    } else {
      WhenDoubles(b, a);
      DoubleAdds(When(b, a), Partial(Double(a), Half(b), n - 1));
      PartialDoubles(Double(a), Half(b), n - 1);
    }
  }

  lemma {:induction false} PartialZero(a: bv8, b: bv8, n: nat)
    ensures Partial(a, 0, n) == 0
    ensures Partial(0, b, n) == 0
    decreases n
  {
    hide Plus, Double, Half, When;
    if n > 0 {
      DoubleAdds(a, a);
      HalfAdds(b, b);
      WhenAdds(0, 0, a);
      WhenAdds(0, 0, b);
      Shuffle(0, 0, 0, 0);
      PartialZero(Double(a), Half(b), n - 1);
    }
  }

  /// Multiplying by x shifts; an x^8 that falls out is worth x^4 + x^3 + x^2 + 1.
  lemma {:induction false} TimesX(a: bv8)
    ensures Product(a, 2) == Double(a)
    ensures a < 128 ==> Double(a) == a << 1
    ensures a >= 128 ==> Double(a) == (a << 1) ^ 0x1D
  {
    var d := Double(a);
    assert Partial(d, 1, 7) == Plus(d, Partial(Double(d), 0, 6)) by {
      assert Half(1) == 0;
    }
    PartialZero(Double(d), 0, 6);
    assert Half(2) == 1;
  }

  /// The recursion laid flat.
  lemma {:induction false} ProductIs(a: bv8, b: bv8)
    ensures var a1, b1 := Double(a), Half(b);
      var a2, b2 := Double(a1), Half(b1);
      var a3, b3 := Double(a2), Half(b2);
      var a4, b4 := Double(a3), Half(b3);
      var a5, b5 := Double(a4), Half(b4);
      var a6, b6 := Double(a5), Half(b5);
      var a7, b7 := Double(a6), Half(b6);
      Product(a, b) ==
        Plus(When(b, a), Plus(When(b1, a1), Plus(When(b2, a2), Plus(When(b3, a3),
        Plus(When(b4, a4), Plus(When(b5, a5), Plus(When(b6, a6), When(b7, a7))))))))
  {
    hide Plus, Double, Half, When;
    var a1, b1 := Double(a), Half(b);
    var a2, b2 := Double(a1), Half(b1);
    var a3, b3 := Double(a2), Half(b2);
    var a4, b4 := Double(a3), Half(b3);
    var a5, b5 := Double(a4), Half(b4);
    var a6, b6 := Double(a5), Half(b5);
    var a7, b7 := Double(a6), Half(b6);
    Shuffle(When(b7, a7), 0, 0, 0);
    assert Partial(a7, b7, 1) == When(b7, a7);
    assert Partial(a6, b6, 2) == Plus(When(b6, a6), Partial(a7, b7, 1));
    assert Partial(a5, b5, 3) == Plus(When(b5, a5), Partial(a6, b6, 2));
    assert Partial(a4, b4, 4) == Plus(When(b4, a4), Partial(a5, b5, 3));
    assert Partial(a3, b3, 5) == Plus(When(b3, a3), Partial(a4, b4, 4));
    assert Partial(a2, b2, 6) == Plus(When(b2, a2), Partial(a3, b3, 5));
    assert Partial(a1, b1, 7) == Plus(When(b1, a1), Partial(a2, b2, 6));
  }

  lemma {:induction false} OneIsUnit(b: bv8)
    ensures Product(1, b) == b
  {
    ProductIs(1, b);
    hide Product;
  }

  lemma {:induction false} SplitBit(b: bv8)
    ensures b == Plus(When(b, 1), Double(Half(b)))
  {
  }

  /// `b` fits in its lowest `n` bits.
  predicate Fits(b: bv8, n: nat)
    decreases n
  {
    if n == 0 then b == 0 else Fits(Half(b), n - 1)
  }

  lemma {:induction false} AllFit(b: bv8)
    ensures Fits(b, 8)
  {
    assert Half(Half(Half(Half(Half(Half(Half(Half(b)))))))) == 0;
    hide Half;
    assert Fits(Half(Half(Half(Half(b)))), 4) by {
      assert Fits(Half(Half(Half(Half(Half(Half(b)))))), 2);
    }
    assert Fits(Half(Half(b)), 6);
  }

  lemma {:induction false} PartialCommutes(a: bv8, b: bv8, n: nat)
    requires Fits(b, n)
    ensures Partial(a, b, n) == Product(b, a)
    decreases n
  {
    if n == 0 {
      PartialZero(0, a, 8);
    } else {
      SplitBit(b);
      UnitWhen(b, a);
      hide Plus, Double, Half, When;
      PartialCommutes(a, Half(b), n - 1);
      PartialDoubles(a, Half(b), n - 1);
      PartialDoubles(Half(b), a, 8);
      PartialAddsLeft(When(b, 1), Double(Half(b)), a, 8);
    }
  }

  lemma {:induction false} UnitWhen(b: bv8, a: bv8)
    ensures Product(When(b, 1), a) == When(b, a)
  {
    hide Partial;
    OneIsUnit(a);
    PartialZero(0, a, 8);
  }

  lemma {:induction false} ProductCommutes(a: bv8, b: bv8)
    ensures Product(a, b) == Product(b, a)
  {
    AllFit(b);
    PartialCommutes(a, b, 8);
  }

  lemma {:induction false} ProductWhen(a: bv8, c: bv8, b: bv8)
    ensures Product(a, When(c, b)) == When(c, Product(a, b))
  {
    PartialZero(a, b, 8);
    hide Product;
  }

  lemma {:induction false} PartialAssociates(a: bv8, b: bv8, c: bv8, n: nat)
    ensures Partial(Product(a, b), c, n) == Product(a, Partial(b, c, n))
    decreases n
  {
    if n == 0 {
      PartialZero(a, b, 8);
    } else {
      hide Plus, Double, Half, When;
      PartialAssociates(a, Double(b), Half(c), n - 1);
      ProductCommutes(a, Double(b));
      ProductCommutes(a, b);
      PartialDoubles(b, a, 8);
      PartialAddsRight(a, When(c, b), Partial(Double(b), Half(c), n - 1), 8);
      ProductWhen(a, c, b);
    }
  }

  /// The sixteenth power, which is linear in the bits.
  function Sixteenth(a: bv8): bv8 {
    When(a, 0x01) ^ When(a >> 1, 0x4C) ^ When(a >> 2, 0x9D) ^ When(a >> 3, 0x46)
    ^ When(a >> 4, 0x5F) ^ When(a >> 5, 0xFD) ^ When(a >> 6, 0xD9) ^ When(a >> 7, 0x81)
  }

  /// Inverses within the subfield of sixteen elements.
  function SubfieldInverse(b: bv8): bv8 {
    if b == 0x01 then 0x01
    else if b == 0x0A then 0xDD
    else if b == 0x0B then 0x98
    else if b == 0x44 then 0x92
    else if b == 0x45 then 0x4E
    else if b == 0x4E then 0x45
    else if b == 0x4F then 0x93
    else if b == 0x92 then 0x44
    else if b == 0x93 then 0x4F
    else if b == 0x98 then 0x0B
    else if b == 0x99 then 0xDC
    else if b == 0xD6 then 0xD7
    else if b == 0xD7 then 0xD6
    else if b == 0xDC then 0x99
    else 0x0A
  }

  /// Inverse by way of the norm a^17, which lies in the subfield of sixteen elements.
  function Reciprocal(a: bv8): bv8 {
    Product(Sixteenth(a), SubfieldInverse(Product(a, Sixteenth(a))))
  }

  /// The non-zero elements of the subfield of sixteen.
  predicate InSubfield(b: bv8) {
    || b == 0x01 || b == 0x0A || b == 0x0B || b == 0x44 || b == 0x45 || b == 0x4E || b == 0x4F || b == 0x92
    || b == 0x93 || b == 0x98 || b == 0x99 || b == 0xD6 || b == 0xD7 || b == 0xDC || b == 0xDD
  }

  lemma {:induction false} NormInSubfield(a: bv8)
    requires a != 0
    ensures InSubfield(Product(a, Sixteenth(a)))
  {
    ProductIs(a, Sixteenth(a));
    hide Product;
    if a & 1 == 0 {
      if a & 2 == 0 {} else {}
    } else {
      if a & 2 == 0 {} else {}
    }
  }

  lemma {:induction false} SubfieldPairs()
    ensures Product(0x01, 0x01) == 1
    ensures Product(0x0A, 0xDD) == 1
    ensures Product(0x0B, 0x98) == 1
    ensures Product(0x44, 0x92) == 1
    ensures Product(0x45, 0x4E) == 1
    ensures Product(0x4E, 0x45) == 1
    ensures Product(0x4F, 0x93) == 1
    ensures Product(0x92, 0x44) == 1
    ensures Product(0x93, 0x4F) == 1
    ensures Product(0x98, 0x0B) == 1
    ensures Product(0x99, 0xDC) == 1
    ensures Product(0xD6, 0xD7) == 1
    ensures Product(0xD7, 0xD6) == 1
    ensures Product(0xDC, 0x99) == 1
    ensures Product(0xDD, 0x0A) == 1
  {
    ProductIs(0x01, 0x01);
    ProductIs(0x0A, 0xDD);
    ProductIs(0x0B, 0x98);
    ProductIs(0x44, 0x92);
    ProductIs(0x45, 0x4E);
    ProductIs(0x4E, 0x45);
    ProductIs(0x4F, 0x93);
    ProductIs(0x92, 0x44);
    ProductIs(0x93, 0x4F);
    ProductIs(0x98, 0x0B);
    ProductIs(0x99, 0xDC);
    ProductIs(0xD6, 0xD7);
    ProductIs(0xD7, 0xD6);
    ProductIs(0xDC, 0x99);
    ProductIs(0xDD, 0x0A);
    hide Product;
  }

  lemma {:induction false} SubfieldInverts(b: bv8)
    requires InSubfield(b)
    ensures Product(b, SubfieldInverse(b)) == 1
  {
    SubfieldPairs();
    hide Product;
  }

  lemma {:induction false} ReciprocalInverts(a: bv8)
    requires a != 0
    ensures Product(a, Reciprocal(a)) == 1
  {
    hide Sixteenth, SubfieldInverse;
    var norm := Product(a, Sixteenth(a));
    NormInSubfield(a);
    SubfieldInverts(norm);
    PartialAssociates(a, Sixteenth(a), SubfieldInverse(norm), 8);
  }

  // ----- on bytes -----

  function Join(low: bool, rest: bv8): bv8 {
    (rest << 1) ^ (if low then 1 else 0)
  }

  function ToBits(n: nat, k: nat): bv8
    decreases k
  {
    if k == 0 then 0 else Join(n % 2 == 1, ToBits(n / 2, k - 1))
  }

  function ToNat(v: bv8, k: nat): (n: nat)
    ensures k <= 8 ==> n < Limit(k)
    decreases k
  {
    if k == 0 then 0 else (if v & 1 == 1 then 1 else 0) + 2 * ToNat(Half(v), k - 1)
  }

  function Limit(k: nat): nat {
    if k == 0 then 1 else 2 * Limit(k - 1)
  }

  function Bits(a: byte): bv8 {
    ToBits(a as int, 8)
  }

  function FromBits(v: bv8): byte {
    assert Limit(8) == 256 by {
      assert Limit(4) == 16;
    }
    ToNat(v, 8) as byte
  }

  lemma {:induction false} JoinLaws(low: bool, rest: bv8, v: bv8)
    ensures Join(low, rest) & 1 == 1 <==> low
    ensures rest & 0x80 == 0 ==> Half(Join(low, rest)) == rest
    ensures Join(v & 1 == 1, Half(v)) == v
    ensures v == 0 <==> !(v & 1 == 1) && Half(v) == 0
  {
  }

  lemma {:induction false} FitsMore(v: bv8, k: nat, m: nat)
    requires Fits(v, k) && k <= m
    ensures Fits(v, m)
    decreases m
  {
    if m > 0 {
      HalfAdds(0, 0);
      hide Half;
      FitsMore(Half(v), if k == 0 then 0 else k - 1, m - 1);
    }
  }

  lemma {:induction false} FitsSeven(v: bv8)
    requires Fits(v, 7)
    ensures v & 0x80 == 0
  {
    assert Half(Half(Half(Half(Half(Half(Half(v))))))) == 0 ==> v & 0x80 == 0;
    hide Half;
    assert Fits(Half(Half(Half(Half(v)))), 3);
  }

  lemma {:induction false} ToBitsFits(n: nat, k: nat)
    requires k <= 8
    ensures Fits(ToBits(n, k), k)
    decreases k
  {
    if k > 0 {
      var rest := ToBits(n / 2, k - 1);
      ToBitsFits(n / 2, k - 1);
      FitsMore(rest, k - 1, 7);
      FitsSeven(rest);
      JoinLaws(n % 2 == 1, rest, 0);
      hide Join, Half;
    }
  }

  lemma {:induction false} NatBack(n: nat, k: nat)
    requires k <= 8 && n < Limit(k)
    ensures ToNat(ToBits(n, k), k) == n
    decreases k
  {
    if k > 0 {
      var rest := ToBits(n / 2, k - 1);
      NatBack(n / 2, k - 1);
      ToBitsFits(n / 2, k - 1);
      FitsMore(rest, k - 1, 7);
      FitsSeven(rest);
      JoinLaws(n % 2 == 1, rest, 0);
      hide Join, Half;
    }
  }

  lemma {:induction false} NatThere(v: bv8, k: nat)
    requires Fits(v, k)
    ensures ToBits(ToNat(v, k), k) == v
    decreases k
  {
    if k > 0 {
      NatThere(Half(v), k - 1);
      JoinLaws(true, 0, v);
      hide Join, Half;
    }
  }

  lemma {:induction false} BitsThere(v: bv8)
    ensures Bits(FromBits(v)) == v
  {
    AllFit(v);
    NatThere(v, 8);
    hide Fits;
  }

  lemma {:induction false} BitsBack(a: byte)
    ensures FromBits(Bits(a)) == a
  {
    assert Limit(8) == 256 by {
      assert Limit(4) == 16;
    }
    NatBack(a as int, 8);
    hide Fits, ToBits, ToNat;
  }

  lemma {:induction false} ByteConstants()
    ensures Bits(0) == 0 && Bits(1) == 1 && FromBits(0) == 0 && FromBits(1) == 1
  {
    ZeroBits(8);
    ZeroBits(7);
    BitsBack(0);
    BitsBack(1);
    assert ToBits(1, 8) == Join(true, ToBits(0, 7));
    assert Join(true, 0) == 1;
  }

  lemma {:induction false} ZeroBits(k: nat)
    ensures ToBits(0, k) == 0
    decreases k
  {
    if k > 0 {
      ZeroBits(k - 1);
      JoinLaws(false, 0, 0);
    }
  }

  /// Addition, which is also subtraction.
  function Add(a: byte, b: byte): byte {
    FromBits(Plus(Bits(a), Bits(b)))
  }

  function Mul(a: byte, b: byte): byte {
    FromBits(Product(Bits(a), Bits(b)))
  }

  function Inverse(a: byte): byte {
    FromBits(Reciprocal(Bits(a)))
  }

  lemma {:induction false} PlusLaws(a: bv8, b: bv8, c: bv8)
    ensures Plus(a, b) == Plus(b, a)
    ensures Plus(Plus(a, b), c) == Plus(a, Plus(b, c))
    ensures Plus(a, 0) == a && Plus(0, a) == a
    ensures Plus(a, a) == 0
    ensures Plus(a, b) == 0 ==> a == b
  {
  }

  lemma {:induction false} AddLaws(a: byte, b: byte, c: byte)
    ensures Add(a, b) == Add(b, a)
    ensures Add(Add(a, b), c) == Add(a, Add(b, c))
    ensures Add(a, 0) == a && Add(0, a) == a
    ensures Add(a, a) == 0
    ensures Add(a, b) == 0 ==> a == b
  {
    hide Bits, FromBits, Plus;
    var x, y, z := Bits(a), Bits(b), Bits(c);
    BitsThere(Plus(x, y));
    BitsThere(Plus(y, z));
    BitsBack(a);
    BitsBack(b);
    ByteConstants();
    PlusLaws(x, y, z);
  }

  lemma {:induction false} MulLaws(a: byte, b: byte, c: byte)
    ensures Mul(a, b) == Mul(b, a)
    ensures Mul(Mul(a, b), c) == Mul(a, Mul(b, c))
    ensures Mul(a, 0) == 0 && Mul(0, a) == 0
    ensures Mul(a, 1) == a && Mul(1, a) == a
  {
    hide Bits, FromBits, Partial;
    var x, y, z := Bits(a), Bits(b), Bits(c);
    BitsThere(Product(x, y));
    BitsThere(Product(y, z));
    BitsBack(a);
    ByteConstants();
    ProductCommutes(x, y);
    ProductCommutes(x, 1);
    OneIsUnit(x);
    PartialZero(x, x, 8);
    PartialAssociates(x, y, z, 8);
  }

  lemma {:induction false} MulAdds(a: byte, b: byte, c: byte)
    ensures Mul(a, Add(b, c)) == Add(Mul(a, b), Mul(a, c))
    ensures Mul(Add(b, c), a) == Add(Mul(b, a), Mul(c, a))
  {
    hide Bits, FromBits, Plus, Partial;
    var x, y, z := Bits(a), Bits(b), Bits(c);
    BitsThere(Plus(y, z));
    BitsThere(Product(x, y));
    BitsThere(Product(x, z));
    ProductCommutes(x, y);
    ProductCommutes(x, z);
    ProductCommutes(x, Plus(y, z));
    PartialAddsRight(x, y, z, 8);
  }

  lemma {:induction false} NonZeroBits(a: byte)
    requires a != 0
    ensures Bits(a) != 0
  {
    BitsBack(a);
    ByteConstants();
    hide Bits, FromBits;
  }

  /// Every byte but zero has an inverse, so a product is zero only if a factor is.
  lemma {:induction false} InverseLaw(a: byte, b: byte)
    requires a != 0
    ensures Mul(a, Inverse(a)) == 1
    ensures Mul(a, b) == 0 ==> b == 0
  {
    hide Bits, FromBits, Reciprocal, Product, Mul;
    NonZeroBits(a);
    InverseIs(a);
    MulLaws(Inverse(a), a, b);
    MulLaws(b, 0, Inverse(a));
    MulLaws(Inverse(a), 0, 0);
  }

  lemma {:induction false} InverseIs(a: byte)
    requires Bits(a) != 0
    ensures Mul(a, Inverse(a)) == 1
  {
    hide Bits, FromBits, Reciprocal, Product;
    BitsThere(Reciprocal(Bits(a)));
    ByteConstants();
    ReciprocalInverts(Bits(a));
  }
}

/** Arithmetic in GF(2^8), the field of section 4.2 of FIPS 197, as the recovery-share
    code computes it: a shift-and-reduce product and an inverse by square-and-multiply.
    Addition and subtraction are both xor.

    The proofs work on `Xor`, `XTime` and `Mul` as plain symbols: bit vectors are looked
    at only in the few lemmas that state the facts below, and `hide` keeps them shut
    everywhere else. */
module GF256 {

  type byte = bv8

  function Xor(a: byte, b: byte): byte {
    a ^ b
  }

  /** Multiplication by x: one turn of the shift-and-reduce loop. */
  function XTime(a: byte): byte {
    (a << 1) ^ (if a & 0x80 != 0 then 0x1b else 0)
  }

  /** `c` times `a`, for a single bit `c`. */
  function Pick(c: bool, a: byte): byte {
    if c then a else 0
  }

  function Odd(b: byte): bool {
    b & 1 == 1
  }

  function Half(b: byte): byte {
    b >> 1
  }

  function Mul(a: byte, b: byte): byte
    decreases b
  {
    if b == 0 then 0 else Xor(Pick(Odd(b), a), Mul(XTime(a), Half(b)))
  }

  method GfMul(x: byte, y: byte) returns (product: byte)
    ensures product == Mul(x, y)
  {
    var a, b := x, y;
    product := 0;
    while b != 0
      invariant Xor(product, Mul(a, b)) == Mul(x, y)
      decreases b
    {
      XorAssoc(product, a, Mul(XTime(a), Half(b)));
      if b & 1 == 1 {
        product := product ^ a;
      }
      var high := a & 0x80;
      a := a << 1;
      if high != 0 {
        a := a ^ 0x1b;
      }
      b := b >> 1;
    }
  }

  // ---------- facts about bits ----------

  lemma XorAssoc(a: byte, b: byte, c: byte)
    ensures Xor(Xor(a, b), c) == Xor(a, Xor(b, c))
  {}

  lemma XorComm(a: byte, b: byte)
    ensures Xor(a, b) == Xor(b, a)
  {}

  lemma XorSwap(a: byte, b: byte, c: byte, d: byte)
    ensures Xor(Xor(a, b), Xor(c, d)) == Xor(Xor(a, c), Xor(b, d))
  {
    hide *;
    XorAssoc(a, b, Xor(c, d));
    XorAssoc(b, c, d);
    XorComm(b, c);
    XorAssoc(c, b, d);
    XorAssoc(a, c, Xor(b, d));
  }

  lemma XorZero(a: byte)
    ensures Xor(a, 0) == a == Xor(0, a)
    ensures Xor(a, a) == 0
  {}

  lemma XorCancel(a: byte, b: byte)
    ensures Xor(Xor(a, b), b) == a && Xor(b, Xor(b, a)) == a
    ensures Xor(a, b) == 0 <==> a == b
  {}

  lemma PickXor(c: bool, a: byte, b: byte)
    ensures Pick(c, Xor(a, b)) == Xor(Pick(c, a), Pick(c, b))
  {}

  lemma BitFacts(a: byte, b: byte)
    ensures a & 0x80 == 0 || a & 0x80 == 0x80
    ensures (a ^ b) & 0x80 == (a & 0x80) ^ (b & 0x80)
    ensures (a ^ b) << 1 == (a << 1) ^ (b << 1)
  {}

  lemma XTimeXor(a: byte, b: byte)
    ensures XTime(Xor(a, b)) == Xor(XTime(a), XTime(b))
  {
    BitFacts(a, b);
    BitFacts(b, a);
    var u, v, r: byte := a << 1, b << 1, 0x1b;
    assert (u ^ r) ^ (v ^ r) == u ^ v;
    assert (u ^ r) ^ v == (u ^ v) ^ r;
    assert u ^ (v ^ r) == (u ^ v) ^ r;
  }

  /** Every byte is its low bit plus x times the rest. */
  lemma SplitLow(b: byte)
    ensures b == Xor(Pick(Odd(b), 1), XTime(Half(b)))
    ensures b != 0 ==> Half(b) < b
  {
    assert (b >> 1) & 0x80 == 0;
    assert b & 1 == 1 ==> b == 1 ^ ((b >> 1) << 1);
    assert b & 1 != 1 ==> b == (b >> 1) << 1;
  }

  lemma SplitXor(b: byte, c: byte)
    ensures Half(Xor(b, c)) == Xor(Half(b), Half(c))
    ensures Odd(Xor(b, c)) == (Odd(b) != Odd(c))
  {
    assert (b ^ c) >> 1 == (b >> 1) ^ (c >> 1);
    assert (b ^ c) & 1 == (b & 1) ^ (c & 1);
    assert b & 1 == 0 || b & 1 == 1;
    assert c & 1 == 0 || c & 1 == 1;
  }

  // ---------- the product is bilinear, commutative and associative ----------

  lemma MulStep(a: byte, b: byte)
    ensures b == 0 ==> Mul(a, b) == 0
    ensures b != 0 ==> Mul(a, b) == Xor(Pick(Odd(b), a), Mul(XTime(a), Half(b)))
    ensures b != 0 ==> Half(b) < b
  {}

  lemma {:induction false} MulZero(b: byte)
    ensures Mul(0, b) == 0
    decreases b
  {
    if b != 0 {
      MulZero(b >> 1);
    }
  }

  lemma {:induction false} MulXorLeft(a: byte, c: byte, b: byte)
    ensures Mul(Xor(a, c), b) == Xor(Mul(a, b), Mul(c, b))
    decreases b
  {
    MulStep(a, b);
    MulStep(c, b);
    MulStep(Xor(a, c), b);
    XorZero(0);
    hide *;
    if b != 0 {
      XTimeXor(a, c);
      MulXorLeft(XTime(a), XTime(c), Half(b));
      PickXor(Odd(b), a, c);
      XorSwap(Pick(Odd(b), a), Pick(Odd(b), c), Mul(XTime(a), Half(b)), Mul(XTime(c), Half(b)));
    }
  }

  lemma PickXTime(c: bool, a: byte)
    ensures Pick(c, XTime(a)) == XTime(Pick(c, a))
  {}

  lemma {:induction false} MulXTime(a: byte, b: byte)
    ensures Mul(XTime(a), b) == XTime(Mul(a, b))
    decreases b
  {
    MulStep(a, b);
    MulStep(XTime(a), b);
    PickXTime(false, a);
    assert XTime(0) == 0;
    hide *;
    if b != 0 {
      MulXTime(XTime(a), Half(b));
      PickXTime(Odd(b), a);
      XTimeXor(Pick(Odd(b), a), Mul(XTime(a), Half(b)));
    }
  }

  /** Horner's form of the product in its second argument. */
  lemma MulHorner(a: byte, b: byte)
    ensures Mul(a, b) == Xor(Pick(Odd(b), a), XTime(Mul(a, Half(b))))
  {
    MulStep(a, b);
    MulXTime(a, Half(b));
    assert Mul(a, 0) == 0 && Half(0) == 0 && Xor(Pick(false, a), XTime(0)) == 0;
    hide *;
  }

  lemma {:induction false} MulOne(b: byte)
    ensures Mul(1, b) == b
    decreases b
  {
    MulStep(1, b);
    hide *;
    if b != 0 {
      MulHorner(1, b);
      SplitLow(b);
      MulOne(Half(b));
    }
  }

  lemma {:induction false} MulComm(a: byte, b: byte)
    ensures Mul(a, b) == Mul(b, a)
    decreases b
  {
    MulZero(a);
    MulStep(a, b);
    SplitLow(b);
    assert Mul(Pick(Odd(b), 1), a) == Pick(Odd(b), a) by {
      MulOne(a);
    }
    hide *;
    if b != 0 {
      MulHorner(a, b);
      MulComm(a, Half(b));
      MulXorLeft(Pick(Odd(b), 1), XTime(Half(b)), a);
      MulXTime(Half(b), a);
    }
  }

  lemma MulXorRight(a: byte, b: byte, c: byte)
    ensures Mul(a, Xor(b, c)) == Xor(Mul(a, b), Mul(a, c))
  {
    hide *;
    MulComm(a, Xor(b, c));
    MulComm(a, b);
    MulComm(a, c);
    MulXorLeft(b, c, a);
  }

  lemma {:induction false} MulAssoc(a: byte, b: byte, c: byte)
    ensures Mul(Mul(a, b), c) == Mul(a, Mul(b, c))
    decreases c
  {
    MulStep(b, c);
    MulStep(Mul(a, b), c);
    MulStep(a, 0);
    assert Mul(a, Pick(Odd(c), b)) == Pick(Odd(c), Mul(a, b));
    hide *;
    if c != 0 {
      var d := Mul(b, Half(c));
      MulHorner(b, c);
      MulHorner(Mul(a, b), c);
      MulAssoc(a, b, Half(c));
      MulXorRight(a, Pick(Odd(c), b), XTime(d));
      MulComm(a, XTime(d));
      MulXTime(d, a);
      MulComm(d, a);
    }
  }

  /** The eight turns of the loop, written out. */
  function MulBits(a: byte, b: byte): byte {
    var a1, b1 := XTime(a), Half(b);
    var a2, b2 := XTime(a1), Half(b1);
    var a3, b3 := XTime(a2), Half(b2);
    var a4, b4 := XTime(a3), Half(b3);
    var a5, b5 := XTime(a4), Half(b4);
    var a6, b6 := XTime(a5), Half(b5);
    var a7, b7 := XTime(a6), Half(b6);
    Xor(Pick(Odd(b), a), Xor(Pick(Odd(b1), a1), Xor(Pick(Odd(b2), a2), Xor(Pick(Odd(b3), a3),
    Xor(Pick(Odd(b4), a4), Xor(Pick(Odd(b5), a5), Xor(Pick(Odd(b6), a6), Pick(Odd(b7), a7))))))))
  }

  lemma MulUnrolled(a: byte, b: byte)
    ensures Mul(a, b) == MulBits(a, b)
  {
    var a1, b1 := XTime(a), Half(b);
    var a2, b2 := XTime(a1), Half(b1);
    var a3, b3 := XTime(a2), Half(b2);
    var a4, b4 := XTime(a3), Half(b3);
    var a5, b5 := XTime(a4), Half(b4);
    var a6, b6 := XTime(a5), Half(b5);
    var a7, b7 := XTime(a6), Half(b6);
    assert Half(b7) == 0;
    MulTurn(a, b);
    MulTurn(a1, b1);
    MulTurn(a2, b2);
    MulTurn(a3, b3);
    MulTurn(a4, b4);
    MulTurn(a5, b5);
    MulTurn(a6, b6);
    MulTurn(a7, b7);
    MulStep(XTime(a7), 0);
    XorZero(Pick(Odd(b7), a7));
    hide Mul, Xor, XTime, Half, Odd, Pick;
  }

  lemma MulTurn(a: byte, b: byte)
    ensures Mul(a, b) == Xor(Pick(Odd(b), a), Mul(XTime(a), Half(b)))
  {
    assert Half(0) == 0 && !Odd(0);
  }

  // ---------- powers and the inverse ----------

  function Square(a: byte): byte {
    Mul(a, a)
  }

  function Power(a: byte, n: nat): byte {
    if n == 0 then 1 else Mul(a, Power(a, n - 1))
  }

  /** `k` successive squarings. */
  function Frobenius(a: byte, k: nat): byte
    decreases k
  {
    if k == 0 then a else Frobenius(Square(a), k - 1)
  }

  lemma MulExchange(a: byte, b: byte, c: byte, d: byte)
    ensures Mul(Mul(a, b), Mul(c, d)) == Mul(Mul(a, c), Mul(b, d))
  {
    hide *;
    MulAssoc(a, b, Mul(c, d));
    MulAssoc(b, c, d);
    MulComm(b, c);
    MulAssoc(c, b, d);
    MulAssoc(a, c, Mul(b, d));
  }

  lemma SquareLaws(a: byte, b: byte)
    ensures Square(Xor(a, b)) == Xor(Square(a), Square(b))
    ensures Square(Mul(a, b)) == Mul(Square(a), Square(b))
  {
    hide Mul, Xor;
    MulXorLeft(a, b, Xor(a, b));
    MulXorRight(a, a, b);
    MulXorRight(b, a, b);
    MulComm(a, b);
    XorSwap(Mul(a, a), Mul(a, b), Mul(a, b), Mul(b, b));
    XorComm(Mul(a, b), Mul(b, b));
    XorCancel(Mul(b, b), Mul(a, b));
    XorAssoc(Mul(a, a), Mul(a, b), Xor(Mul(a, b), Mul(b, b)));
    XorCancel(Mul(b, b), Mul(a, b));
    MulExchange(a, b, a, b);
  }

  lemma {:induction false} FrobeniusLaws(a: byte, b: byte, k: nat)
    ensures Frobenius(Xor(a, b), k) == Xor(Frobenius(a, k), Frobenius(b, k))
    ensures Frobenius(Mul(a, b), k) == Mul(Frobenius(a, k), Frobenius(b, k))
    decreases k
  {
    hide Mul, Xor, Square;
    if k > 0 {
      SquareLaws(a, b);
      FrobeniusLaws(Square(a), Square(b), k - 1);
    }
  }

  lemma SquareConstant(a: byte, b: byte)
    requires MulBits(a, a) == b
    ensures Square(a) == b
  {
    MulUnrolled(a, a);
    hide Mul;
  }

  // The orbit of x under squaring, one square at a time.

  lemma BitsOf02()
    ensures MulBits(0x02, 0x02) == 0x04
  {}

  lemma BitsOf04()
    ensures MulBits(0x04, 0x04) == 0x10
  {}

  lemma BitsOf10()
    ensures MulBits(0x10, 0x10) == 0x1b
  {}

  lemma BitsOf1b()
    ensures MulBits(0x1b, 0x1b) == 0x5e
  {}

  lemma BitsOf5e()
    ensures MulBits(0x5e, 0x5e) == 0xe4
  {}

  lemma BitsOfe4()
    ensures MulBits(0xe4, 0xe4) == 0x4d
  {}

  lemma BitsOf4d()
    ensures MulBits(0x4d, 0x4d) == 0xfa
  {}

  lemma BitsOffa()
    ensures MulBits(0xfa, 0xfa) == 0x02
  {}

  lemma EightSquaringsFixConstants()
    ensures Frobenius(0, 8) == 0 && Frobenius(1, 8) == 1 && Frobenius(2, 8) == 2
  {
    assert Square(0) == 0 && Square(1) == 1;
    hide Square, Mul, MulBits;
    BitsOf02();
    SquareConstant(0x02, 0x04);
    BitsOf04();
    SquareConstant(0x04, 0x10);
    BitsOf10();
    SquareConstant(0x10, 0x1b);
    BitsOf1b();
    SquareConstant(0x1b, 0x5e);
    BitsOf5e();
    SquareConstant(0x5e, 0xe4);
    BitsOfe4();
    SquareConstant(0xe4, 0x4d);
    BitsOf4d();
    SquareConstant(0x4d, 0xfa);
    BitsOffa();
    SquareConstant(0xfa, 0x02);
  }

  lemma XTimeIsMulTwo(a: byte)
    ensures XTime(a) == Mul(2, a)
  {
    assert XTime(1) == 2;
    hide *;
    MulXTime(1, a);
    MulOne(a);
  }

  /** Squaring eight times is the identity: a^256 == a for every byte. */
  lemma {:induction false} EightSquaringsFixAll(a: byte)
    ensures Frobenius(a, 8) == a
    decreases a
  {
    EightSquaringsFixConstants();
    assert Frobenius(Pick(Odd(a), 1), 8) == Pick(Odd(a), 1);
    hide *;
    if a != 0 {
      SplitLow(a);
      XTimeIsMulTwo(Half(a));
      FrobeniusLaws(Pick(Odd(a), 1), XTime(Half(a)), 8);
      FrobeniusLaws(2, Half(a), 8);
      EightSquaringsFixAll(Half(a));
    }
  }

  lemma {:induction false} PowerAdd(a: byte, m: nat, n: nat)
    ensures Power(a, m + n) == Mul(Power(a, m), Power(a, n))
  {
    hide Mul;
    if m == 0 {
      MulOne(Power(a, n));
    } else {
      PowerAdd(a, m - 1, n);
      MulAssoc(a, Power(a, m - 1), Power(a, n));
    }
  }

  lemma {:induction false} PowerSquare(a: byte, n: nat)
    ensures Power(a, 2 * n) == Power(Square(a), n)
  {
    hide Mul;
    if n > 0 {
      PowerSquare(a, n - 1);
      PowerAdd(a, 2, 2 * (n - 1));
      PowerAdd(a, 1, 1);
      MulComm(a, 1);
      MulOne(a);
    }
  }

  lemma Power256(a: byte)
    ensures Power(a, 256) == a
  {
    hide Mul, Square;
    EightSquaringsFixAll(a);
    PowerIsFrobenius(a, 8);
  }

  function TwoTo(k: nat): nat {
    if k == 0 then 1 else 2 * TwoTo(k - 1)
  }

  lemma {:induction false} PowerIsFrobenius(a: byte, k: nat)
    ensures Power(a, TwoTo(k)) == Frobenius(a, k)
    decreases k
  {
    hide Mul, Square;
    if k == 0 {
      MulComm(a, 1);
      MulOne(a);
    } else {
      PowerSquare(a, TwoTo(k - 1));
      PowerIsFrobenius(Square(a), k - 1);
    }
  }

  lemma IdempotentsAreBits(e: byte)
    requires Square(e) == e
    ensures e == 0 || e == 1
  {
    MulUnrolled(e, e);
    hide Mul;
  }

  function Inverse(a: byte): byte {
    if a == 0 then 0 else Power(a, 254)
  }

  /** a^255 is idempotent and not zero, so it is 1. */
  lemma MulInverse(a: byte)
    requires a != 0
    ensures Mul(a, Inverse(a)) == 1
    ensures Mul(Inverse(a), a) == 1
  {
    assert Inverse(a) == Power(a, 254);
    MulZero(a);
    MulStep(a, 0);
    assert Power(a, 1) == Mul(a, 1);
    var e := Power(a, 255);
    assert Square(e) == Mul(e, e);
    hide *;
    MulComm(a, 1);
    MulOne(a);
    PowerAdd(a, 1, 254);
    PowerAdd(a, 1, 255);
    PowerAdd(a, 256, 254);
    PowerAdd(a, 255, 255);
    Power256(a);
    IdempotentsAreBits(e);
    MulComm(a, Inverse(a));
  }

  lemma MulCancel(a: byte, b: byte)
    requires Mul(a, b) == 0
    ensures a == 0 || b == 0
  {
    MulStep(Inverse(a), 0);
    hide *;
    if a != 0 {
      MulInverse(a);
      MulAssoc(Inverse(a), a, b);
      MulOne(b);
    }
  }

  /** The square-and-multiply loop. */
  method GfInv(a: byte) returns (result: byte)
    ensures result == Inverse(a)
  {
    if a == 0 {
      return 0;
    }
    result := 1;
    var base, power: nat := a, 254;
    MulOne(Power(a, 254));
    while power > 0
      invariant Mul(result, Power(base, power)) == Power(a, 254)
    {
      hide Mul;
      PowerSquare(base, power / 2);
      PowerAdd(base, 1, power - 1);
      MulAssoc(result, base, Power(base, power - 1));
      if power % 2 == 1 {
        result := GfMul(result, base);
      }
      base := GfMul(base, base);
      power := power / 2;
    }
    MulComm(result, 1);
    MulOne(result);
  }

  function Quotient(a: byte, b: byte): byte {
    if b == 0 then 0 else Mul(a, Inverse(b))
  }

  method GfDiv(a: byte, b: byte) returns (result: byte)
    ensures result == Quotient(a, b)
  {
    if b == 0 {
      return 0;
    }
    var inverse := GfInv(b);
    result := GfMul(a, inverse);
  }

  lemma QuotientUndoesMul(a: byte, b: byte)
    requires b != 0
    ensures Mul(Quotient(a, b), b) == a
    ensures Quotient(Mul(a, b), b) == a
  {
    hide Mul, Inverse;
    MulAssoc(a, Inverse(b), b);
    MulAssoc(a, b, Inverse(b));
    MulInverse(b);
    MulComm(a, 1);
    MulOne(a);
  }
}

/** An independent reading of the field product: bytes are polynomials over GF(2), and the
    product is the remainder of the carry-less product on division by
    x^8 + x^4 + x^3 + x + 1. */
module Carryless {
  import opened GF256

  /** Wide enough for a product of two polynomials of degree 7. */
  type word = bv16

  const MODULUS: word := 0x11b

  function Wide(a: byte): word {
    a as word
  }

  function XorW(a: word, b: word): word {
    a ^ b
  }

  function PickW(c: bool, a: word): word {
    if c then a else 0
  }

  function TimesX(a: word): word {
    a << 1
  }

  /** Shift and add, without any reduction. */
  function Product(a: word, b: byte): word
    decreases b
  {
    if b == 0 then 0 else XorW(PickW(Odd(b), a), Product(TimesX(a), Half(b)))
  }

  /** The quotient that division by the modulus leaves, one bit per reduction. */
  function Carried(a: byte, b: byte): byte
    decreases b
  {
    if b == 0 then 0
    else Xor(Pick(a & 0x80 != 0, Half(b)), Carried(XTime(a), Half(b)))
  }

  // ---------- facts about words ----------

  lemma XorWFacts(a: word, b: word, c: word)
    ensures XorW(XorW(a, b), c) == XorW(a, XorW(b, c))
    ensures XorW(a, b) == XorW(b, a)
    ensures XorW(a, 0) == a == XorW(0, a) && XorW(a, a) == 0
  {}

  lemma XorWSwap(a: word, b: word, c: word, d: word)
    ensures XorW(XorW(a, b), XorW(c, d)) == XorW(XorW(a, c), XorW(b, d))
  {
    hide *;
    XorWFacts(a, b, XorW(c, d));
    XorWFacts(b, c, d);
    XorWFacts(c, b, d);
    XorWFacts(a, c, XorW(b, d));
  }

  lemma TimesXXor(a: word, b: word)
    ensures TimesX(XorW(a, b)) == XorW(TimesX(a), TimesX(b))
  {}

  lemma PickWFacts(c: bool, d: bool, a: word, b: word)
    ensures PickW(c, XorW(a, b)) == XorW(PickW(c, a), PickW(c, b))
    ensures XorW(PickW(c, a), PickW(d, a)) == PickW(c != d, a)
    ensures TimesX(XorW(a, b)) == XorW(TimesX(a), TimesX(b))
  {
    hide XorW, TimesX;
    TimesXXor(a, b);
    XorWFacts(a, a, a);
    XorWFacts(0, 0, 0);
  }

  /** Shifting a byte either stays in range or is a reduction plus one modulus. */
  lemma ShiftWide(a: byte)
    ensures TimesX(Wide(a)) == XorW(Wide(XTime(a)), PickW(a & 0x80 != 0, MODULUS))
  {
    var w := a as word;
    if a & 0x80 != 0 {
      assert w << 1 == (((a << 1) ^ 0x1b) as word) ^ 0x11b;
    } else {
      assert w << 1 == (a << 1) as word;
    }
  }

  lemma WideFacts(c: bool, a: byte, b: byte)
    ensures Wide(Xor(a, b)) == XorW(Wide(a), Wide(b))
    ensures Wide(Pick(c, a)) == PickW(c, Wide(a))
  {}

  lemma ProductStep(a: word, b: byte)
    ensures b == 0 ==> Product(a, b) == 0
    ensures b != 0 ==> Product(a, b) == XorW(PickW(Odd(b), a), Product(TimesX(a), Half(b)))
    ensures b != 0 ==> Half(b) < b
  {}

  lemma {:induction false} ProductXorLeft(a: word, c: word, b: byte)
    ensures Product(XorW(a, c), b) == XorW(Product(a, b), Product(c, b))
    decreases b
  {
    ProductStep(a, b);
    ProductStep(c, b);
    ProductStep(XorW(a, c), b);
    XorWFacts(0, 0, 0);
    hide *;
    if b != 0 {
      PickWFacts(Odd(b), Odd(b), a, c);
      ProductXorLeft(TimesX(a), TimesX(c), Half(b));
      XorWSwap(PickW(Odd(b), a), PickW(Odd(b), c), Product(TimesX(a), Half(b)), Product(TimesX(c), Half(b)));
    }
  }

  lemma ProductTurn(a: word, b: byte)
    ensures Product(a, b) == XorW(PickW(Odd(b), a), Product(TimesX(a), Half(b)))
  {
    assert Half(0) == 0 && !Odd(0);
  }

  lemma {:induction false} ProductXorRight(a: word, b: byte, c: byte)
    ensures Product(a, Xor(b, c)) == XorW(Product(a, b), Product(a, c))
    decreases b
  {
    ProductStep(a, b);
    ProductTurn(a, b);
    ProductTurn(a, c);
    ProductTurn(a, Xor(b, c));
    XorZero(c);
    hide *;
    if b == 0 {
      XorWFacts(Product(a, c), 0, 0);
    } else {
      SplitXor(b, c);
      ProductXorRight(TimesX(a), Half(b), Half(c));
      PickWFacts(Odd(b), Odd(c), a, a);
      XorWSwap(PickW(Odd(b), a), PickW(Odd(c), a), Product(TimesX(a), Half(b)), Product(TimesX(a), Half(c)));
    }
  }

  lemma ProductPick(c: bool, b: byte)
    ensures Product(PickW(c, MODULUS), b) == Product(MODULUS, Pick(c, b))
  {
    ProductOfZero(b);
    assert Product(MODULUS, 0) == 0;
    hide Product;
  }

  lemma {:induction false} ProductOfZero(b: byte)
    ensures Product(0, b) == 0
    decreases b
  {
    if b != 0 {
      ProductOfZero(Half(b));
    }
  }

  /** The field product differs from the carry-less product by a multiple of the modulus. */
  lemma {:induction false} MulIsRemainder(a: byte, b: byte)
    ensures Product(Wide(a), b) == XorW(Product(MODULUS, Carried(a, b)), Wide(Mul(a, b)))
    decreases b
  {
    if b == 0 {
      assert Product(MODULUS, 0) == 0 && Wide(0) == 0;
    } else {
      var high, h, low := a & 0x80 != 0, Half(b), PickW(Odd(b), Wide(a));
      var rest := Mul(XTime(a), h);
      var carried := Carried(XTime(a), h);
      ProductStep(Wide(a), b);
      MulStep(a, b);
      assert Carried(a, b) == Xor(Pick(high, h), carried);
      assert TimesX(Wide(a)) == XorW(Wide(XTime(a)), PickW(high, MODULUS)) by {
        ShiftWide(a);
      }
      MulIsRemainder(XTime(a), h);
      hide *;
      WideFacts(Odd(b), a, rest);
      WideFacts(Odd(b), Pick(Odd(b), a), rest);
      ProductXorLeft(Wide(XTime(a)), PickW(high, MODULUS), h);
      ProductPick(high, h);
      ProductXorRight(MODULUS, Pick(high, h), carried);
      Regroup(low, Product(MODULUS, carried), Wide(rest), Product(MODULUS, Pick(high, h)));
    }
  }

  lemma Regroup(low: word, m: word, rest: word, extra: word)
    ensures XorW(low, XorW(XorW(m, rest), extra)) == XorW(XorW(extra, m), XorW(low, rest))
  {
    hide *;
    XorWFacts(XorW(m, rest), extra, 0);
    XorWFacts(extra, m, rest);
    XorWFacts(low, XorW(extra, m), rest);
    XorWFacts(XorW(extra, m), low, rest);
  }

  // ---------- a remainder below x^8 is unique ----------

  lemma HalfIsSmall(b: byte)
    ensures Half(b) < 0x80
  {}

  lemma {:induction false} CarriedIsSmall(a: byte, b: byte)
    ensures Carried(a, b) < 0x80
    decreases b
  {
    if b != 0 {
      CarriedIsSmall(XTime(a), Half(b));
      var p, q := Pick(a & 0x80 != 0, Half(b)), Carried(XTime(a), Half(b));
      HalfIsSmall(b);
      assert p < 0x80 && q < 0x80;
      assert Carried(a, b) == Xor(p, q);
      hide Carried, XTime, Pick, Half;
    }
  }

  /** A nonzero multiple of the modulus has degree at least 8. */
  lemma SmallMultipleIsZero(q: byte)
    requires q < 0x80 && Product(MODULUS, q) < 0x100
    ensures q == 0
  {
    var m1, q1 := TimesX(MODULUS), Half(q);
    var m2, q2 := TimesX(m1), Half(q1);
    var m3, q3 := TimesX(m2), Half(q2);
    var m4, q4 := TimesX(m3), Half(q3);
    var m5, q5 := TimesX(m4), Half(q4);
    var m6, q6 := TimesX(m5), Half(q5);
    ProductTurn(MODULUS, q);
    ProductTurn(m1, q1);
    ProductTurn(m2, q2);
    ProductTurn(m3, q3);
    ProductTurn(m4, q4);
    ProductTurn(m5, q5);
    ProductTurn(m6, q6);
    assert Half(q6) == 0 && Product(TimesX(m6), 0) == 0;
    hide Product;
  }

  /** `r` is what division of the carry-less product of `a` and `b` by the modulus leaves. */
  ghost predicate IsRemainder(a: byte, b: byte, r: byte) {
    exists q: byte :: q < 0x80 && Product(Wide(a), b) == XorW(Product(MODULUS, q), Wide(r))
  }

  /** The field product is the remainder of the carry-less product, and the only one. */
  lemma MulIsTheRemainder(a: byte, b: byte, r: byte)
    ensures IsRemainder(a, b, r) <==> r == Mul(a, b)
  {
    MulIsRemainder(a, b);
    CarriedIsSmall(a, b);
    if IsRemainder(a, b, r) {
      var q: byte :| q < 0x80 && Product(Wide(a), b) == XorW(Product(MODULUS, q), Wide(r));
      RemainderIsUnique(q, r, Carried(a, b), Mul(a, b));
    }
  }

  lemma RemainderIsUnique(q: byte, r: byte, q': byte, r': byte)
    requires q < 0x80 && q' < 0x80
    requires XorW(Product(MODULUS, q), Wide(r)) == XorW(Product(MODULUS, q'), Wide(r'))
    ensures r == r'
  {
    hide *;
    XorWMoves(Product(MODULUS, q), Wide(r), Product(MODULUS, q'), Wide(r'));
    ProductXorRight(MODULUS, q, q');
    WideFacts(true, r, r');
    WideIsSmall(Xor(r, r'));
    XorIsSmall(q, q');
    SmallMultipleIsZero(Xor(q, q'));
    ProductStep(MODULUS, 0);
    XorCancel(r, r');
  }

  lemma XorWMoves(p: word, r: word, p': word, r': word)
    requires XorW(p, r) == XorW(p', r')
    ensures XorW(p, p') == XorW(r, r')
  {
    hide *;
    var a, b, x := XorW(p, p'), XorW(r, r'), XorW(p, r);
    XorWSwap(p, r, p', r');
    XorWFacts(x, x, x);
    XorWFacts(a, b, b);
    XorWFacts(b, b, b);
    XorWFacts(a, a, a);
  }

  lemma WideIsSmall(a: byte)
    ensures Wide(a) < 0x100
    ensures Wide(a) == 0 ==> a == 0
  {}

  lemma XorIsSmall(q: byte, q': byte)
    requires q < 0x80 && q' < 0x80
    ensures Xor(q, q') < 0x80
  {}
}

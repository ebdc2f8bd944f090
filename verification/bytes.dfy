/** Share indexes as field elements. */
module Bytes {

  lemma ConversionIsExact(i: int)
    requires 0 <= i < 256
    ensures (i as bv8) as int == i
  {}

  function ByteOf(i: int): bv8
    requires 0 <= i < 256
  {
    i as bv8
  }

  lemma ByteOfInjective(i: int, j: int)
    requires 0 <= i < 256 && 0 <= j < 256
    ensures ByteOf(i) == ByteOf(j) <==> i == j
  {
    assert ByteOf(i) == i as bv8 && ByteOf(j) == j as bv8;
    ConversionIsExact(i);
    ConversionIsExact(j);
    hide *;
  }
}

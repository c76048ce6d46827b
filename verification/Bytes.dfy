/** Bytes made from numbers, digit by binary digit. */
module Bytes {

  lemma Doubled(b: bv8, odd: bool)
    requires b as int < 128
    ensures ((b << 1) | (if odd then 1 else 0)) as int == 2 * (b as int) + (if odd then 1 else 0)
  {}

  /** The byte whose value is v. */
  function ByteOf(v: nat): (b: bv8)
    requires v < 256
    ensures b as int == v
  {
    if v == 0 then 0
    else
      var half := ByteOf(v / 2);
      Doubled(half, v % 2 == 1);
      (half << 1) | (if v % 2 == 1 then 1 else 0)
  }
}

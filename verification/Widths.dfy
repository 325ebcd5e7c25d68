/** The widths of the code's integers. */
module Widths {
  const TWO31: int := 0x8000_0000
  const TWO32: int := 0x1_0000_0000
  const TWO64: int := 0x1_0000_0000_0000_0000

  /** A cast to `int32`. */
  function ToInt32(x: int): int {
    var m := x % TWO32;
    if m < TWO31 then m else m - TWO32
  }

  lemma CastRange(x: int)
    ensures -TWO31 <= ToInt32(x) < TWO31
    ensures x >= -TWO31 ==> ToInt32(x) <= x
  {
  }

  lemma CastExact(x: int)
    requires 0 <= x < TWO31
    ensures ToInt32(x) == x
  {
  }
}

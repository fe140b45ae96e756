/** Percentages kept as exact rationals. */
module Percentages {
  /** `part` out of `whole` as a percentage, 0 for an empty whole. */
  function Percent(part: nat, whole: nat): (p: real)
    ensures whole == 0 ==> p == 0.0
    ensures whole > 0 ==> p * whole as real == part as real * 100.0
  {
    if whole == 0 then 0.0 else (part as real / whole as real) * 100.0
  }

  /** A part of a whole is between 0 and 100 percent of it: none of it is
      0 and all of a non-empty whole is 100. */
  lemma {:induction false} PercentBounds(part: nat, whole: nat)
    requires part <= whole
    ensures 0.0 <= Percent(part, whole) <= 100.0
    ensures part == 0 ==> Percent(part, whole) == 0.0
    ensures whole > 0 && part == whole ==> Percent(part, whole) == 100.0
  {
    if whole > 0 {
      var w := whole as real;
      var q := part as real / w;
      assert q * w == part as real;
      assert (1.0 - q) * w == (whole - part) as real;
      assert 0.0 <= 1.0 - q;
    }
  }

  /** One more part of the same non-empty whole is a larger percentage. */
  lemma {:induction false} PercentGrows(part: nat, whole: nat)
    requires whole > 0
    ensures Percent(part + 1, whole) > Percent(part, whole)
  {
    var w := whole as real;
    assert (part + 1) as real / w == part as real / w + 1.0 / w;
    assert 1.0 / w > 0.0;
  }
}

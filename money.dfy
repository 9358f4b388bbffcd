/** Currency amounts are integer cents. The pages compute with binary floats and
    round with `Number(x.toFixed(2))`; over cents that rounding becomes the
    rounding of a rational number of cents to the nearest whole cent. */
module Money {

  /** `Number((num / den).toFixed(2))` in cents, for a value of `num / den` cents.
      `toFixed` picks the nearer whole cent and, on a tie, the one of larger
      magnitude (it rounds the absolute value and re-applies the sign). */
  function RoundCents(num: int, den: int): (r: int)
    requires den > 0
    ensures -den <= 2 * (den * r - num) <= den
    ensures 2 * (den * r - num) == den ==> num > 0
    ensures 2 * (den * r - num) == -den ==> num < 0
  {
    if num >= 0 then
      var q := (2 * num + den) / (2 * den);
      var m := (2 * num + den) % (2 * den);
      assert 2 * num + den == 2 * den * q + m;
      assert 2 * (den * q - num) == den - m;
      q
    else
      var q := (-2 * num + den) / (2 * den);
      var m := (-2 * num + den) % (2 * den);
      assert -2 * num + den == 2 * den * q + m;
      assert 2 * (den * -q - num) == m - den;
      -q
  }

  /** When the quotient is a whole number of cents, rounding changes nothing. */
  lemma RoundCentsExact(k: int, den: int)
    requires den > 0
    ensures RoundCents(den * k, den) == k
  {
    var r := RoundCents(den * k, den);
    var d := r - k;
    assert den * r - den * k == den * d;
    if d != 0 {
      NonZeroMultiple(den, d);
    }
  }

  lemma NonZeroMultiple(den: int, d: int)
    requires den > 0 && d != 0
    ensures 2 * den * d > den || 2 * den * d < -den
  {
    if d > 0 {
      assert den * d == den + den * (d - 1);
    } else {
      assert den * d == -den + den * (d + 1);
    }
  }
}

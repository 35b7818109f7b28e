/** Money is a real number of euros. `round2` in the quotation route rounds to
    cents with JavaScript's `Math.round`, which takes halves up (towards
    positive infinity); the rounding is modelled exactly on reals, without the
    binary floating-point artefacts of `n * 100`. */
module Money {

  /** `x` is a whole number of cents. */
  predicate IsCents(x: real) {
    (x * 100.0).Floor as real == x * 100.0
  }

  /** `Math.round`: the integer nearest to `x`, halves going up. */
  function RoundHalfUp(x: real): (n: int)
    ensures x - 0.5 < n as real <= x + 0.5
  {
    (x + 0.5).Floor
  }

  /** `round2(n) = Math.round(n * 100) / 100`: the whole number of cents
      nearest to `x`, half a cent going up. */
  function Round2(x: real): (r: real)
    ensures IsCents(r)
    ensures x - 0.005 < r <= x + 0.005
  {
    var n := RoundHalfUp(x * 100.0);
    assert (n as real / 100.0) * 100.0 == n as real;
    n as real / 100.0
  }

  /** Rounding an amount that already is in cents leaves it unchanged. */
  lemma {:induction false} Round2OfCents(x: real)
    requires IsCents(x)
    ensures Round2(x) == x
  {
    var c := (x * 100.0).Floor;
    assert x * 100.0 + 0.5 == c as real + 0.5;
    assert RoundHalfUp(x * 100.0) == c;
  }

  /** Rounding fixes exactly the amounts already in cents. */
  lemma {:induction false} Round2Fixes(x: real)
    ensures Round2(x) == x <==> IsCents(x)
  {
    if IsCents(x) {
      Round2OfCents(x);
    }
  }

  /** Rounding to cents is idempotent. */
  lemma {:induction false} Round2Idempotent(x: real)
    ensures Round2(Round2(x)) == Round2(x)
  {
    Round2OfCents(Round2(x));
  }

  /** Rounding never reverses the order of two amounts. */
  lemma {:induction false} Round2Monotone(x: real, y: real)
    requires x <= y
    ensures Round2(x) <= Round2(y)
  {
    var a, b := RoundHalfUp(x * 100.0), RoundHalfUp(y * 100.0);
    assert a as real <= x * 100.0 + 0.5 <= y * 100.0 + 0.5 < b as real + 1.0;
    assert a <= b;
    assert a as real / 100.0 <= b as real / 100.0;
  }

  /** Sums of amounts in cents are amounts in cents. */
  lemma {:induction false} CentsSum(a: real, b: real)
    requires IsCents(a) && IsCents(b)
    ensures IsCents(a + b)
  {
    var ca, cb := (a * 100.0).Floor, (b * 100.0).Floor;
    assert (a + b) * 100.0 == (ca + cb) as real;
  }

  /** Every whole number of euros is an amount in cents. */
  lemma {:induction false} IntegerIsCents(n: int)
    ensures IsCents(n as real)
  {
    assert (n as real) * 100.0 == (n * 100) as real;
  }

  /** `x` times a count; the multiplication is kept behind a function so that
      equal factors give equal products in every proof that uses it. */
  function Times(x: real, n: nat): real {
    x * (n as real)
  }

  /** A product by a count keeps the order of its factors. */
  lemma {:induction false} TimesMonotone(x: real, y: real, n: nat)
    requires x <= y
    ensures Times(x, n) <= Times(y, n)
  {
  }

  /** Two factors within half a cent give products within half a cent per unit. */
  lemma {:induction false} TimesClose(x: real, y: real, n: nat)
    requires y - 0.005 <= x <= y + 0.005
    ensures Times(y, n) - 0.005 * (n as real) <= Times(x, n) <= Times(y, n) + 0.005 * (n as real)
  {
    var k := n as real;
    var d := x - y;
    assert Times(x, n) - Times(y, n) == d * k;
    var lo, hi := d + 0.005, 0.005 - d;
    assert lo >= 0.0 && hi >= 0.0 && k >= 0.0;
    assert lo * k >= 0.0 && hi * k >= 0.0;
    assert lo * k == d * k + 0.005 * k;
    assert hi * k == 0.005 * k - d * k;
  }

  /** Rounding to cents keeps an amount that is not negative not negative. */
  lemma {:induction false} Round2NonNegative(x: real)
    requires x >= 0.0
    ensures Round2(x) >= 0.0
  {
    IntegerIsCents(0);
    Round2OfCents(0.0);
    Round2Monotone(0.0, x);
  }
}

/** Sequence counters as R sees them: 64-bit integers that reach it as doubles. */
module Counters {
  const EXACT := 9007199254740992                   // 2^53
  const WRAP := 18446744073709551616                // 2^64

  /** How far apart doubles are around `n` (section 3.3 of IEEE 754-2019: 53 significant bits). */
  function Spacing(n: nat): (u: nat)
    ensures u > 0
  {
    if n < EXACT then 1 else 2 * Spacing(n / 2)
  }

  /** A cast to double: the nearest one, and of two equally near the one with an even significand. */
  function ToDouble(n: nat): nat {
    var u := Spacing(n);
    var q, r := n / u, n % u;
    if 2 * r < u || (2 * r == u && q % 2 == 0) then q * u else (q + 1) * u
  }

  lemma {:induction false} SpacingScale(n: nat)
    requires n >= EXACT
    ensures EXACT / 2 * Spacing(n) <= n < EXACT * Spacing(n)
    ensures Spacing(n) % 2 == 0
  {
    if n / 2 >= EXACT { SpacingScale(n / 2); }
  }

  lemma Quotient(n: nat, u: nat)
    requires u > 0
    ensures n == n / u * u + n % u && 0 <= n % u < u
  {}

  lemma QuotientAtLeast(n: nat, m: nat, u: nat)
    requires u > 0 && m * u <= n
    ensures m <= n / u
  {
    if n / u < m {
      Quotient(n, u);
      Times(n / u + 1, m, u);
    }
  }

  lemma Times(a: nat, b: nat, u: nat)
    requires a <= b
    ensures a * u <= b * u
  {}

  /** Integers up to 2^53 are exact... */
  lemma ExactBelow(n: nat)
    requires n <= EXACT
    ensures ToDouble(n) == n
  {}

  /** ...and larger ones stay at or above it. */
  lemma NeverBelow(n: nat)
    requires n >= EXACT
    ensures ToDouble(n) >= EXACT
  {
    var u := Spacing(n);
    SpacingScale(n);
    QuotientAtLeast(n, EXACT / 2, u);
    Times(EXACT / 2, n / u, u);
    Times(n / u, n / u + 1, u);
    Times(2, u, EXACT / 2);
  }

  /** The cast is off by half a spacing at most. */
  lemma CastIsNear(n: nat)
    ensures -(Spacing(n) as int) <= 2 * (ToDouble(n) - n) <= Spacing(n)
  {
    var u := Spacing(n);
    Quotient(n, u);
    assert (n / u + 1) * u == n / u * u + u;
  }

  /** Past 2^53 consecutive counters become the same number. */
  lemma DuplicatesPast()
    ensures ToDouble(EXACT + 1) == ToDouble(EXACT) == EXACT
  {}

  /** The test that guards an increment, in doubles throughout. 2^53 less a whole number up to it
      is exact. */
  predicate Refuses(counter: nat, increment: nat) {
    !(increment <= EXACT) || ToDouble(counter) > EXACT - increment
  }

  /** On any counter the double test is the integer one. */
  lemma RefusesExactly(counter: nat, increment: nat)
    requires increment > 0
    ensures Refuses(counter, increment) <==> counter + increment > EXACT
  {
    if counter <= EXACT { ExactBelow(counter); } else { NeverBelow(counter); }
  }

  /** R's increment: any double at all. */
  datatype Increment = NotANumber | Infinite | Number(x: real)

  /** What mdbx_dbi_sequence() lets through: whole numbers from 0 to 2^53. */
  function CheckIncrement(i: Increment): (r: int)
    ensures r == -1 || 0 <= r <= EXACT
    ensures r >= 0 <==> i.Number? && 0.0 <= i.x <= EXACT as real && i.x == i.x.Floor as real
    ensures r >= 0 ==> r as real == i.x
  {
    if !i.Number? || i.x < 0.0 || i.x > EXACT as real || i.x != i.x.Floor as real then -1
    else i.x.Floor
  }
}

/** The retry delay: base << attempt in wrapping 64-bit arithmetic, capped, with jitter. */
module Backoff {
  const TWO63 := 0x8000_0000_0000_0000
  const TWO64 := 0x1_0000_0000_0000_0000

  predicate IsInt64(x: int) {
    -TWO63 <= x < TWO63
  }

  function Pow2(n: nat): nat {
    if n == 0 then 1 else 2 * Pow2(n - 1)
  }

  // Two's complement: the int64 congruent to x modulo 2^64.
  function Wrap(x: int): int {
    var m := x % TWO64;
    if m < TWO63 then m else m - TWO64
  }

  lemma WrapIsCongruent(x: int)
    ensures IsInt64(Wrap(x)) && (x - Wrap(x)) % TWO64 == 0
  {
  }

  // A left shift of an int64; by 64 or more it leaves nothing.
  function Shl(x: int, n: nat): int {
    if n >= 64 then 0 else Wrap(x * Pow2(n))
  }

  // The delay before jitter.
  function Cap(base: int, max: int, attempt: nat): int {
    var delay := Shl(base, attempt);
    if delay <= 0 || delay > max then max else delay
  }

  // `jitter` is what the random source returns for a bound of half + 1.
  method Delay(base: int, max: int, attempt: nat, jitter: int) returns (d: int)
    requires 0 < max
    requires 0 <= jitter < Cap(base, max, attempt) / 2 + 1
    ensures 0 < Cap(base, max, attempt) <= max
    ensures Cap(base, max, attempt) / 2 <= d <= Cap(base, max, attempt)
    ensures d == Cap(base, max, attempt) / 2 + jitter
  {
    var delay := Shl(base, attempt);
    if delay <= 0 || delay > max {
      delay := max;
    }
    var half := delay / 2;
    d := half + jitter;
  }

  // What exponential growth with a cap should give.
  function Ideal(base: int, max: int, attempt: nat): int {
    if base * Pow2(attempt) <= max then base * Pow2(attempt) else max
  }

  lemma WrapSmall(x: int)
    requires IsInt64(x)
    ensures Wrap(x) == x
  {
  }

  lemma {:induction false} Pow2Monotone(a: nat, b: nat)
    requires a <= b
    ensures 0 < Pow2(a) <= Pow2(b)
    decreases b
  {
    if a < b {
      Pow2Monotone(a, b - 1);
    } else if b > 0 {
      Pow2Monotone(a - 1, b - 1);
    }
  }

  lemma {:induction false} Pow2Add(a: nat, b: nat)
    ensures Pow2(a + b) == Pow2(a) * Pow2(b)
  {
    if a > 0 {
      Pow2Add(a - 1, b);
      assert Pow2(a + b) == 2 * Pow2(a - 1 + b);
      assert 2 * (Pow2(a - 1) * Pow2(b)) == (2 * Pow2(a - 1)) * Pow2(b);
    }
  }

  lemma Pow2At64()
    ensures Pow2(63) == TWO63 && Pow2(64) == TWO64
  {
    Pow2Add(32, 32);
    Pow2Add(32, 31);
    assert Pow2(8) == 256;
    Pow2Add(8, 8);
    Pow2Add(16, 16);
    assert Pow2(7) == 128;
    Pow2Add(8, 7);
    Pow2Add(16, 15);
  }

  // A multiple of a divisor of 2^64 stays a multiple of it when wrapped.
  lemma WrapKeepsMultiples(q: int, d: int, k: int)
    requires d > 0 && TWO64 == d * k
    ensures exists z :: Wrap(q * d) == z * d
  {
    var x := q * d;
    var m := x % TWO64;
    var n := x / TWO64;
    assert x == TWO64 * n + m;
    assert m == (q - k * n) * d by {
      assert TWO64 * n == (k * n) * d;
    }
    assert m - TWO64 == (q - k * n - k) * d;
  }

  lemma Assoc(x: int, y: int, z: int)
    ensures x * (y * z) == (x * y) * z
  {
  }

  lemma WrapOfMultiple(q: int)
    ensures Wrap(q * TWO64) == 0
  {
    assert (q * TWO64) % TWO64 == 0;
  }

  // Past 64 bits of shift nothing is left: the same value the multiplication would wrap to.
  lemma ShlIsWrap(x: int, n: nat)
    ensures Shl(x, n) == Wrap(x * Pow2(n))
  {
    if n >= 64 {
      Pow2At64();
      Pow2Add(n - 64, 64);
      Assoc(x, Pow2(n - 64), Pow2(64));
      WrapOfMultiple(x * Pow2(n - 64));
    }
  }

  /** Attempt by attempt: the cap is the ideal one iff the shift did not overflow, or overflowed to
      something the guard throws away (or to max itself). */
  lemma CapIsIdealIff(base: int, max: int, attempt: nat)
    requires 0 < base && 0 < max && IsInt64(max)
    ensures Cap(base, max, attempt) == Ideal(base, max, attempt) <==>
            base * Pow2(attempt) < TWO63 || Shl(base, attempt) <= 0 || Shl(base, attempt) >= max
  {
    ShlIsWrap(base, attempt);
    Pow2Monotone(0, attempt);
    assert base * Pow2(attempt) > 0;
    if base * Pow2(attempt) < TWO63 {
      WrapSmall(base * Pow2(attempt));
    }
  }

  /** Whole configurations: write base as odd * 2^twos. If odd * max fits in an int64 the cap is ideal
      at every attempt, however many shifts that is: whatever survives an overflow is a multiple of
      2^(twos + attempt), and that exceeds max. */
  lemma CapIsIdealForAllAttempts(base: int, odd: int, twos: nat, max: int, attempt: nat)
    requires 0 < base && 0 < max && odd > 0 && base == odd * Pow2(twos) && odd * max < TWO63
    ensures Cap(base, max, attempt) == Ideal(base, max, attempt)
  {
    var power := Pow2(twos + attempt);
    Pow2Add(twos, attempt);
    Assoc(odd, Pow2(twos), Pow2(attempt));
    assert base * Pow2(attempt) == odd * power;
    MaxFits(odd, max);
    if odd * power >= TWO63 {
      PowerExceeds(odd, power, max);
      Overflowed(odd, twos + attempt, max);
      ShlIsWrap(base, attempt);
    }
    CapIsIdealIff(base, max, attempt);
  }

  // With odd taken to be base itself: it is enough that base * max fits.
  lemma CapIsIdealWhenProductFits(base: int, max: int, attempt: nat)
    requires 0 < base && 0 < max && base * max < TWO63
    ensures Cap(base, max, attempt) == Ideal(base, max, attempt)
  {
    CapIsIdealForAllAttempts(base, base, 0, max, attempt);
  }

  lemma PowerExceeds(odd: int, power: int, max: int)
    requires odd > 0 && odd * power >= TWO63 > odd * max
    ensures power > max
  {
    if power <= max {
      MulMonotone(odd, power, max);
    }
  }

  lemma MulMonotone(c: int, x: int, y: int)
    requires c >= 0 && x <= y
    ensures c * x <= c * y
  {
  }

  lemma MaxFits(odd: int, max: int)
    requires odd > 0 && 0 < max && odd * max < TWO63
    ensures IsInt64(max)
  {
    MulMonotone(max, 1, odd);
  }

  lemma Overflowed(odd: int, shift: nat, max: int)
    requires odd > 0 && Pow2(shift) > max > 0
    ensures Wrap(odd * Pow2(shift)) <= 0 || Wrap(odd * Pow2(shift)) > max
  {
    if shift >= 64 {
      ShlIsWrap(odd, shift);
    } else {
      Pow2At64();
      Pow2Add(shift, 64 - shift);
      Pow2Monotone(0, shift);
      WrapKeepsMultiples(odd, Pow2(shift), Pow2(64 - shift));
      var z :| Wrap(odd * Pow2(shift)) == z * Pow2(shift);
      if z >= 1 {
        MulMonotone(Pow2(shift), 1, z);
      } else {
        MulMonotone(Pow2(shift), z, 0);
      }
    }
  }

  // The shipped defaults, one second and five minutes in nanoseconds, are such a configuration.
  lemma DefaultsAreIdeal(attempt: nat)
    ensures Cap(1_000_000_000, 300_000_000_000, attempt) == Ideal(1_000_000_000, 300_000_000_000, attempt)
  {
    assert Pow2(9) == 512;
    CapIsIdealForAllAttempts(1_000_000_000, 1953125, 9, 300_000_000_000, attempt);
  }

  // Not every configuration is: an overflow can wrap round to a small positive delay.
  lemma WrapCanBite()
    ensures var base := 0x4000_0000_0000_0001;
            Cap(base, TWO63 - 1, 2) == 4 && Ideal(base, TWO63 - 1, 2) == TWO63 - 1
  {
    assert Pow2(2) == 4;
  }
}

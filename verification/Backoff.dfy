/**
 The webhook retry schedule (internal/delivery/delivery.go) in 64-bit
 nanoseconds, where the shift may wrap around.
 */
module Backoff {

  import opened Text

  const DEFAULT_BASE := 500_000_000
  const DEFAULT_MAX := 30_000_000_000
  const SHIFT_LIMIT := 62

  /** A 64-bit duration. */
  predicate Duration(d: int) { -TWO63 <= d < TWO63 }

  function OrDefault(d: int, default: int): int { if d <= 0 then default else d }

  /** The unjittered delay before retry `attempt`. */
  function NextDelay(attempt: int, base: int, max: int): int {
    var b, m := OrDefault(base, DEFAULT_BASE), OrDefault(max, DEFAULT_MAX);
    if 0 <= attempt < SHIFT_LIMIT then
      var shifted := Wrap64(b * Pow2(attempt));
      if 0 < shifted < m then shifted else m
    else m
  }

  /** The documented schedule, without any machine word. */
  function Schedule(attempt: nat, base: int, max: int): int {
    var b, m := OrDefault(base, DEFAULT_BASE), OrDefault(max, DEFAULT_MAX);
    if b * Pow2(attempt) < m then b * Pow2(attempt) else m
  }

  /** Whatever wraps, the delay is positive and capped. */
  lemma DelayInRange(attempt: int, base: int, max: int)
    requires Duration(base) && Duration(max)
    ensures 0 < NextDelay(attempt, base, max) <= OrDefault(max, DEFAULT_MAX)
  {
  }

  lemma WrapSubtracts(n: int) returns (k: int)
    ensures Wrap64(n) == n - k * TWO64
  {
    k := (n + TWO63) / TWO64;
  }

  lemma Factor(b: int, k: int, p: int, r: int)
    ensures b * p - k * (p * r) == (b - k * r) * p
  {
    assert k * (p * r) == (k * r) * p;
  }

  /** A wrapped shift by a < 64 places stays a multiple of 2^a. */
  lemma WrapKeepsLowZeros(b: int, a: nat) returns (q: int)
    requires a < 64
    ensures Wrap64(b * Pow2(a)) == q * Pow2(a)
  {
    var p, r := Pow2(a), Pow2(64 - a);
    assert p * r == TWO64 by {
      Pow2Adds(a, 64 - a);
      Pow2Values();
    }
    var k := WrapSubtracts(b * p);
    q := b - k * r;
    Factor(b, k, p, r);
  }

  lemma CancelFactor(b: int, m: int, p: int)
    requires b > 0 && b * m <= b * p
    ensures m <= p
  {
  }

  lemma NoMultipleBelow(q: int, p: int)
    requires p > 0
    ensures !(0 < q * p < p)
  {
  }

  lemma FactorGrows(b: int, p: int)
    requires b >= 1 && p >= 0
    ensures b * p >= p
  {
  }

  /** The delay misses the schedule exactly when the shift wraps into the window
      below the cap, or is refused although it would still fit. */
  predicate Misses(attempt: nat, b: int, m: int) {
    if attempt < SHIFT_LIMIT then b * Pow2(attempt) >= TWO63 && 0 < Wrap64(b * Pow2(attempt)) < m
    else b * Pow2(attempt) < m
  }

  lemma DelayExactly(attempt: nat, base: int, max: int)
    requires Duration(base) && Duration(max)
    ensures NextDelay(attempt, base, max) == Schedule(attempt, base, max) <==>
            !Misses(attempt, OrDefault(base, DEFAULT_BASE), OrDefault(max, DEFAULT_MAX))
  {
    var b, m := OrDefault(base, DEFAULT_BASE), OrDefault(max, DEFAULT_MAX);
    assert b * Pow2(attempt) > 0;
  }

  /** With base * max at most 2^63 and max at most 2^62 the schedule is met at
      every attempt, although the shift itself may wrap. */
  lemma DelayIsSchedule(attempt: nat, base: int, max: int)
    requires Duration(base) && Duration(max)
    requires var b, m := OrDefault(base, DEFAULT_BASE), OrDefault(max, DEFAULT_MAX); b * m <= TWO63 && m <= TWO63 / 2
    ensures NextDelay(attempt, base, max) == Schedule(attempt, base, max)
  {
    hide Pow2, Wrap64;
    DelayExactly(attempt, base, max);
    NeverMisses(attempt, OrDefault(base, DEFAULT_BASE), OrDefault(max, DEFAULT_MAX));
  }

  lemma NeverMisses(attempt: nat, b: int, m: int)
    requires b > 0 && m > 0 && b * m <= TWO63 && m <= TWO63 / 2
    ensures !Misses(attempt, b, m)
  {
    hide Pow2, Wrap64;
    if attempt >= SHIFT_LIMIT {
      Pow2Values();
      Pow2Monotone(62, attempt);
      FactorGrows(b, Pow2(attempt));
    } else if b * Pow2(attempt) >= TWO63 {
      WrapMissesWindow(b, m, attempt);
    }
  }

  lemma WrapMissesWindow(b: int, m: int, a: nat)
    requires b > 0 && m > 0 && a < 64 && b * m <= TWO63 && b * Pow2(a) >= TWO63
    ensures !(0 < Wrap64(b * Pow2(a)) < m)
  {
    hide Pow2, Wrap64;
    var q := WrapKeepsLowZeros(b, a);
    CancelFactor(b, m, Pow2(a));
    NoMultipleBelow(q, Pow2(a));
  }

  /** ... and the delays never shrink from one attempt to the next. */
  lemma DelayMonotone(attempt: nat, base: int, max: int)
    requires Duration(base) && Duration(max)
    requires var b, m := OrDefault(base, DEFAULT_BASE), OrDefault(max, DEFAULT_MAX); b * m <= TWO63 && m <= TWO63 / 2
    ensures NextDelay(attempt, base, max) <= NextDelay(attempt + 1, base, max)
  {
    hide NextDelay, Wrap64;
    DelayIsSchedule(attempt, base, max);
    DelayIsSchedule(attempt + 1, base, max);
    ShiftDoubles(OrDefault(base, DEFAULT_BASE), attempt);
    hide Pow2;
  }

  lemma ShiftDoubles(b: int, attempt: nat)
    requires b > 0
    ensures 0 < b * Pow2(attempt) && b * Pow2(attempt + 1) == 2 * (b * Pow2(attempt))
  {
    var p := Pow2(attempt);
    assert Pow2(attempt + 1) == 2 * p;
    hide Pow2;
    assert b * (2 * p) == 2 * (b * p);
    FactorGrows(b, p);
  }

  /** A base of 2^62 + 1 wraps to 4 at the second retry, below a larger cap. */
  lemma HugeBaseMisses()
    ensures NextDelay(2, TWO63 / 2 + 1, TWO63 / 2) == 4 && Schedule(2, TWO63 / 2 + 1, TWO63 / 2) == TWO63 / 2
  {
    assert Pow2(2) == 4;
  }
}

/** The retry delay (libs/cap-core/src/engine/backoff.ts), with the random draw as a parameter. */
module Backoff {
  function Power2(n: nat): (r: nat)
    ensures r >= 1
  {
    if n == 0 then 1 else 2 * Power2(n - 1)
  }

  function ExpJitter(attempt: nat, baseMs: nat, maxMs: nat, draw: nat): nat
    requires draw < baseMs || baseMs == draw == 0
  {
    var delay := baseMs * Power2(attempt) + draw;
    if delay < maxMs then delay else maxMs
  }

  /** Below the cap the delay lies in the window of its attempt: at least the doubled base, and
      less than one base more; otherwise it is the cap. */
  lemma DelayWindow(attempt: nat, baseMs: nat, maxMs: nat, draw: nat)
    requires draw < baseMs
    ensures var delay, floor := ExpJitter(attempt, baseMs, maxMs, draw), baseMs * Power2(attempt);
      && (delay < maxMs ==> floor <= delay < floor + baseMs)
      && (floor >= maxMs ==> delay == maxMs)
  {
  }

  /** The delay never exceeds the cap and never shrinks from one attempt to a later one,
      whatever the two draws are. */
  lemma {:induction false} DelaysNeverShrink(attempt: nat, later: nat, baseMs: nat, maxMs: nat, draw: nat, draw': nat)
    requires attempt < later && draw < baseMs && draw' < baseMs
    ensures ExpJitter(attempt, baseMs, maxMs, draw) <= ExpJitter(later, baseMs, maxMs, draw') <= maxMs
    decreases later - attempt
  {
    assert Power2(attempt + 1) == 2 * Power2(attempt);
    if later == attempt + 1 {
      assert baseMs * Power2(later) == baseMs * Power2(attempt) + baseMs * Power2(attempt);
      assert baseMs * Power2(attempt) >= baseMs;
    } else {
      DelaysNeverShrink(attempt, later - 1, baseMs, maxMs, draw, draw);
      DelaysNeverShrink(later - 1, later, baseMs, maxMs, draw, draw');
    }
  }

  /** The numbers 1, 2, 4, and so on. */
  ghost predicate Doubling(powers: seq<nat>) {
    (powers != [] ==> powers[0] == 1) && forall i :: 0 <= i < |powers| - 1 ==> powers[i + 1] == 2 * powers[i]
  }

  lemma {:induction false} Power2Doubles(powers: seq<nat>, n: nat)
    requires Doubling(powers) && n < |powers|
    ensures Power2(n) == powers[n]
  {
    if n > 0 { Power2Doubles(powers, n - 1); }
  }

  function Min(a: int, b: int): int {
    if a < b then a else b
  }

  /** The delay after `n` failures is the base doubled `n` times plus the draw, up to the cap. */
  lemma DelayLaw(n: nat, baseMs: nat, maxMs: nat, draw: nat, powers: seq<nat>)
    requires draw < baseMs && Doubling(powers) && n < |powers|
    ensures ExpJitter(n, baseMs, maxMs, draw) == Min(baseMs * powers[n] + draw, maxMs)
  {
    Power2Doubles(powers, n);
  }
}

/** Exponential backoff with a cap, as the relay (outbox.relay.ts) and the consumer
    (kafka-consumer.ts) compute it. */
module Backoff {
  function Pow2(k: nat): (p: nat)
    ensures p >= 1
  {
    if k == 0 then 1 else 2 * Pow2(k - 1)
  }

  /** Math.min(base * 2 ** doublings, cap) */
  function Capped(base: nat, doublings: nat, cap: nat): nat {
    if base * Pow2(doublings) <= cap then base * Pow2(doublings) else cap
  }

  /** The delay starts at the base, doubles until it reaches the cap, and stays there. */
  lemma DoublesToTheCap(base: nat, k: nat, cap: nat)
    ensures Capped(base, 0, cap) == if base <= cap then base else cap
    ensures Capped(base, k + 1, cap) == if 2 * Capped(base, k, cap) <= cap then 2 * Capped(base, k, cap) else cap
    ensures Capped(base, k, cap) <= cap
    ensures Capped(base, k + 1, cap) < cap ==> Capped(base, k + 1, cap) == 2 * Capped(base, k, cap)
    ensures Capped(base, k, cap) == cap ==> Capped(base, k + 1, cap) == cap
  {
    assert base * Pow2(k + 1) == 2 * (base * Pow2(k));
  }
}

/** The retry delay: exponential with jitter, capped.  Durations are whole milliseconds
    and no value reaches 2^63 nanoseconds. */
module Backoff {
  const MAX_JITTER := 499

  function Pow2(n: nat): nat { if n == 0 then 1 else 2 * Pow2(n - 1) }

  datatype Config = Config(base: nat, max: int)

  predicate IsJitter(j: int) { 0 <= j <= MAX_JITTER }

  function Min(a: int, b: int): int { if a < b then a else b }

  function Delay(cfg: Config, attempt: nat, jitter: int): (delay: int)
    ensures delay <= cfg.max
    ensures jitter >= 0 ==> delay >= Min(cfg.max, cfg.base * Pow2(attempt))
  {
    var d := cfg.base * Pow2(attempt) + jitter;
    if d > cfg.max then cfg.max else d
  }

  /** The first delay is the base plus the jitter, capped; below the cap each attempt
      doubles the part that is not jitter. */
  lemma DelayDoubles(cfg: Config, attempt: nat, jitter: int)
    ensures Delay(cfg, 0, jitter) == Min(cfg.max, cfg.base + jitter)
    ensures Delay(cfg, attempt + 1, jitter) < cfg.max && jitter >= 0 ==>
              Delay(cfg, attempt + 1, jitter) - jitter == 2 * (Delay(cfg, attempt, jitter) - jitter)
  {
    var raw := cfg.base * Pow2(attempt);
    assert cfg.base * Pow2(attempt + 1) == 2 * raw;
  }

  /** Whatever the jitter draws, no later attempt waits less than an earlier one. */
  ghost predicate NeverShorter(cfg: Config, attempt: nat) {
    forall j, k :: IsJitter(j) && IsJitter(k) ==> Delay(cfg, attempt, j) <= Delay(cfg, attempt + 1, k)
  }

  /** Exactly when the delay cannot shrink from one attempt to the next: the raw delay
      has outgrown the jitter, or the next one is capped whatever it draws. */
  lemma NeverShorterIff(cfg: Config, attempt: nat)
    ensures NeverShorter(cfg, attempt)
       <==> cfg.base * Pow2(attempt) >= MAX_JITTER || cfg.max <= cfg.base * Pow2(attempt + 1)
  {
    var raw := cfg.base * Pow2(attempt);
    assert cfg.base * Pow2(attempt + 1) == 2 * raw;
    if NeverShorter(cfg, attempt) {
      assert IsJitter(MAX_JITTER) && IsJitter(0);
      assert Delay(cfg, attempt, MAX_JITTER) <= Delay(cfg, attempt + 1, 0);
    }
  }

  /** The delays before the retries 1, ..., n, each with its own jitter. */
  function TotalWait(cfg: Config, jitters: seq<int>): int {
    if jitters == [] then 0
    else TotalWait(cfg, jitters[..|jitters| - 1]) + Delay(cfg, |jitters|, jitters[|jitters| - 1])
  }

  /** A job that is retried n times waits at most n caps and at most the full geometric
      series plus n jitters. */
  lemma {:induction false} TotalWaitBounded(cfg: Config, jitters: seq<int>)
    requires forall i :: 0 <= i < |jitters| ==> IsJitter(jitters[i])
    ensures var n := |jitters|;
            && TotalWait(cfg, jitters) <= n * cfg.max
            && TotalWait(cfg, jitters) <= (Pow2(n + 1) - 2) * cfg.base + n * MAX_JITTER
  {
    if jitters != [] {
      var n := |jitters|;
      TotalWaitBounded(cfg, jitters[..n - 1]);
      var d := Delay(cfg, n, jitters[n - 1]);
      assert d <= cfg.base * Pow2(n) + MAX_JITTER;
      AddCap(n, cfg.max);
      AddTerm(cfg.base, Pow2(n));
    }
  }

  lemma AddCap(n: nat, max: int)
    ensures n * max == (n - 1) * max + max
  {}

  lemma AddTerm(base: int, p: int)
    ensures (2 * p - 2) * base == (p - 2) * base + base * p
  {}
}

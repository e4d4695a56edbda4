/** The client's reconnect delays. */
module Backoff {
  import opened Prelude
  import opened Bits

  /** The largest retry interval a configuration may set, in seconds. */
  const MAX_BASE := 86400
  const CAP := 30
  const U64 := 0x1_0000_0000_0000_0000

  /** A session that has ended: whether it lasted more than a minute, and the jitter drawn after it. */
  datatype Attempt = Attempt(long: bool, jitter: nat)

  /** Short sessions up to attempt `i` that followed another one since the last long session. */
  function Streak(attempts: seq<Attempt>, i: nat): nat
    requires i < |attempts|
  {
    if i == 0 || attempts[i].long then 0 else 1 + Streak(attempts, i - 1)
  }

  /** The wait, in seconds and before jitter, after a streak of `j`. */
  function Nominal(base: nat, j: nat): nat {
    Min(base * Pow2(j), Max(CAP, base))
  }

  /** Doubling the capped wait and capping again is the next nominal wait. */
  lemma NominalDoubles(base: nat, j: nat)
    requires base >= 1
    ensures Nominal(base, j) >= base
    ensures Min(2 * Nominal(base, j), Max(CAP, base)) == Nominal(base, j + 1)
  {
    assert base * Pow2(j + 1) == 2 * (base * Pow2(j));
    assert base * Pow2(j) >= base by { Scale(base, Pow2(j)); }
  }

  lemma Scale(a: nat, b: nat)
    requires b >= 1
    ensures a * b >= a
  {
  }

  /** Waits never shrink within a streak, never exceed the cap, and start at the configured interval. */
  lemma {:induction false} NominalIsMonotone(base: nat, i: nat, j: nat)
    requires base >= 1 && i <= j
    ensures base == Nominal(base, 0) <= Nominal(base, i) <= Nominal(base, j) <= Max(CAP, base)
    decreases j
  {
    if i < j {
      NominalIsMonotone(base, i, j - 1);
      NominalDoubles(base, j - 1);
    } else if i > 0 {
      NominalIsMonotone(base, i - 1, i - 1);
      NominalDoubles(base, i - 1);
    }
  }

  /**
   * Jitter aside, the wait is the interval after the first session and after every long one, and after any
   * other twice the wait before it, but no more than the cap.
   */
  predicate DoublesToCap(base: nat, attempts: seq<Attempt>, waits: seq<nat>, i: nat)
    requires i < |waits| == |attempts|
  {
    var wait, cap := waits[i] - attempts[i].jitter, 1000 * Max(CAP, base);
    if i == 0 || attempts[i].long then wait == 1000 * base
    else
      var doubled := 2 * (waits[i - 1] - attempts[i - 1].jitter);
      wait == if doubled < cap then doubled else cap
  }

  lemma ClosedFormSteps(base: nat, attempts: seq<Attempt>, waits: seq<nat>, i: nat)
    requires base >= 1 && i < |waits| == |attempts|
    requires forall i | 0 <= i < |waits| ::
               waits[i] == 1000 * Nominal(base, Streak(attempts, i)) + attempts[i].jitter
    ensures DoublesToCap(base, attempts, waits, i)
  {
    hide Nominal;
    NominalIsMonotone(base, 0, 0);
    if i > 0 {
      NominalDoubles(base, Streak(attempts, i - 1));
    }
  }

  /**
   * The reconnect loop over any sequence of sessions: after a streak of `j`, the wait in milliseconds is
   * 1000 * min(base * 2^j, max(30, base)) plus the jitter, and 100 if the interval is zero. So it is the
   * interval after the first session and after every long one, and after any other twice the wait before,
   * up to the cap. No intermediate value leaves 64 bits.
   */
  method Reconnect(base: nat, attempts: seq<Attempt>) returns (waits: seq<nat>)
    requires base <= MAX_BASE
    requires forall i | 0 <= i < |attempts| :: attempts[i].jitter <= 1000
    ensures |waits| == |attempts|
    ensures forall i | 0 <= i < |waits| ::
              waits[i] == if base == 0 then 100 else 1000 * Nominal(base, Streak(attempts, i)) + attempts[i].jitter
    ensures base >= 1 ==> forall i | 0 <= i < |waits| :: DoublesToCap(base, attempts, waits, i)
  {
    hide Nominal;
    var delay := 1;
    waits := [];
    for i := 0 to |attempts|
      invariant |waits| == i
      invariant 1 <= delay <= Max(CAP, MAX_BASE)
      invariant i == 0 ==> delay == 1
      invariant i > 0 && base >= 1 ==> delay == Nominal(base, Streak(attempts, i - 1) + 1)
      invariant forall j | 0 <= j < i ::
                  waits[j] == if base == 0 then 100 else 1000 * Nominal(base, Streak(attempts, j)) + attempts[j].jitter
    {
      if attempts[i].long {
        delay := 1;
      }
      ghost var streak := Streak(attempts, i);
      if base >= 1 {
        NominalIsMonotone(base, 0, streak);
        NominalDoubles(base, streak);
      }
      assert base >= 1 ==> Max(delay, base) == Nominal(base, streak);
      assert Max(delay, base) * 1000 + attempts[i].jitter < U64 && Max(delay, base) * 2 < U64;
      var wait := if base == 0 then 100 else Max(delay, base) * 1000 + attempts[i].jitter;
      waits := waits + [wait];
      delay := Min(Max(delay, base) * 2, Max(CAP, base));
    }
    if base >= 1 {
      forall i | 0 <= i < |waits|
        ensures DoublesToCap(base, attempts, waits, i)
      {
        ClosedFormSteps(base, attempts, waits, i);
      }
    }
  }
}

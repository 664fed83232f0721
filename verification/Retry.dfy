// The client's main loop: when it backs off, for how long, and when it gives up.
module Retry {

  datatype RetryConfig = RetryConfig(maxRetries: nat, initialDelayMs: nat, maxDelayMs: nat, exponentialBase: real)

  const DEFAULT_RETRY_CONFIG := RetryConfig(5, 100, 30000, 2.0)

  // The delay before capping: the initial one, multiplied by the base once an attempt.
  function Grown(initial: real, base: real, attempt: nat): real {
    if attempt == 0 then initial else Grown(initial, base, attempt - 1) * base
  }

  function Power2(n: nat): nat {
    if n == 0 then 1 else 2 * Power2(n - 1)
  }

  // Conversion of a float to an integer drops the fraction.
  function Truncate(x: real): int {
    if x >= 0.0 then x.Floor else -((-x).Floor)
  }

  function Capped(delay: real, maxDelayMs: nat): int {
    Truncate(if delay > maxDelayMs as real then maxDelayMs as real else delay)
  }

  function Delay(c: RetryConfig, attempt: nat): int {
    Capped(Grown(c.initialDelayMs as real, c.exponentialBase, attempt), c.maxDelayMs)
  }

  method DelayForAttempt(c: RetryConfig, attempt: nat) returns (ms: int)
    ensures ms == Delay(c, attempt)
  {
    var delay := c.initialDelayMs as real;
    for i := 0 to attempt
      invariant delay == Grown(c.initialDelayMs as real, c.exponentialBase, i)
    {
      delay := delay * c.exponentialBase;
    }
    if delay > c.maxDelayMs as real {
      delay := c.maxDelayMs as real;
    }
    ms := Truncate(delay);
  }

  lemma {:induction false} GrownDoubles(initial: nat, attempt: nat)
    ensures Grown(initial as real, 2.0, attempt) == (initial * Power2(attempt)) as real
  {
    if attempt > 0 {
      GrownDoubles(initial, attempt - 1);
      assert initial * Power2(attempt) == 2 * (initial * Power2(attempt - 1));
    }
  }

  function Power(base: real, n: nat): real {
    if n == 0 then 1.0 else base * Power(base, n - 1)
  }

  lemma {:induction false} GrownIsPower(initial: real, base: real, n: nat)
    ensures Grown(initial, base, n) == initial * Power(base, n)
  {
    if n > 0 {
      GrownIsPower(initial, base, n - 1);
      Reorder(initial, base, Power(base, n - 1));
    }
  }

  lemma Reorder(x: real, y: real, z: real)
    ensures (x * z) * y == x * (y * z)
  {
  }

  // For every base the delay is the whole number of milliseconds in the smaller of the initial delay times the
  // base to the attempt and the cap.
  lemma DelayIsPower(c: RetryConfig, attempt: nat)
    requires c.exponentialBase >= 0.0
    ensures var exact := c.initialDelayMs as real * Power(c.exponentialBase, attempt);
            var least := if exact > c.maxDelayMs as real then c.maxDelayMs as real else exact;
            Delay(c, attempt) as real <= least < Delay(c, attempt) as real + 1.0
  {
    GrownIsPower(c.initialDelayMs as real, c.exponentialBase, attempt);
    PowerNotNegative(c.exponentialBase, attempt);
    TimesNotNegative(c.initialDelayMs as real, Power(c.exponentialBase, attempt));
  }

  lemma {:induction false} PowerNotNegative(base: real, n: nat)
    requires base >= 0.0
    ensures Power(base, n) >= 0.0
  {
    if n > 0 {
      PowerNotNegative(base, n - 1);
      TimesNotNegative(base, Power(base, n - 1));
    }
  }

  lemma TimesNotNegative(x: real, y: real)
    requires x >= 0.0 && y >= 0.0
    ensures x * y >= 0.0
  {
  }

  // Doubling: the initial delay times a power of two, until the cap.
  lemma DelayDoubles(c: RetryConfig, attempt: nat)
    requires c.exponentialBase == 2.0
    ensures var exact := c.initialDelayMs * Power2(attempt);
            Delay(c, attempt) == if exact <= c.maxDelayMs then exact else c.maxDelayMs
  {
    GrownDoubles(c.initialDelayMs, attempt);
    CappedWhole(c.initialDelayMs * Power2(attempt), c.maxDelayMs);
  }

  lemma CappedWhole(delay: nat, maxDelayMs: nat)
    ensures Capped(delay as real, maxDelayMs) == if delay <= maxDelayMs then delay else maxDelayMs
  {
  }

  lemma {:induction false} GrownGrows(initial: real, base: real, m: nat, n: nat)
    requires initial >= 0.0 && base >= 1.0 && m <= n
    ensures 0.0 <= Grown(initial, base, m) <= Grown(initial, base, n)
    decreases n
  {
    if m < n {
      GrownGrows(initial, base, m, n - 1);
      TimesAtLeast(Grown(initial, base, n - 1), base);
    } else if n > 0 {
      GrownGrows(initial, base, n - 1, n - 1);
      TimesAtLeast(Grown(initial, base, n - 1), base);
    }
  }

  lemma TimesAtLeast(x: real, base: real)
    requires x >= 0.0 && base >= 1.0
    ensures x * base >= x
  {
    assert x * (base - 1.0) >= 0.0;
    assert x * base == x * (base - 1.0) + x;
  }

  // Longer streaks never wait less, and no wait exceeds the cap.
  lemma DelayGrowsToCap(c: RetryConfig, m: nat, n: nat)
    requires c.exponentialBase >= 1.0 && m <= n
    ensures 0 <= Delay(c, m) <= Delay(c, n) <= c.maxDelayMs
  {
    var initial := c.initialDelayMs as real;
    GrownGrows(initial, c.exponentialBase, m, n);
    CappedGrows(Grown(initial, c.exponentialBase, m), Grown(initial, c.exponentialBase, n), c.maxDelayMs);
  }

  lemma CappedGrows(x: real, y: real, maxDelayMs: nat)
    requires 0.0 <= x <= y
    ensures 0 <= Capped(x, maxDelayMs) <= Capped(y, maxDelayMs) <= maxDelayMs
  {
  }

  // ---------- the main loop ----------

  // How a sync cycle ended: with an error, or having processed some rows. A requested retry ends a cycle
  // without an error.
  datatype Outcome = Failed | Succeeded(rows: nat)

  // The loop gives up with the error of a cycle, or it is cancelled before the next one.
  datatype RunEnd = GaveUp(at: nat) | Cancelled

  // How many cycles in a row failed up to the n-th.
  function Streak(outcomes: seq<Outcome>, n: nat): nat
    requires n <= |outcomes|
  {
    if n > 0 && outcomes[n - 1].Failed? then Streak(outcomes, n - 1) + 1 else 0
  }

  predicate GivesUpAt(c: RetryConfig, outcomes: seq<Outcome>, i: nat)
    requires i < |outcomes|
  {
    outcomes[i].Failed? && Streak(outcomes, i + 1) >= c.maxRetries
  }

  // The waits of the first n cycles, none of which makes the loop give up.
  function Waits(c: RetryConfig, pollIntervalMs: nat, outcomes: seq<Outcome>, n: nat): seq<int>
    requires n <= |outcomes|
  {
    if n == 0 then []
    else
      Waits(c, pollIntervalMs, outcomes, n - 1) +
        match outcomes[n - 1]
        case Failed => [Delay(c, Streak(outcomes, n))]
        case Succeeded(rows) => if rows == 0 then [pollIntervalMs] else []
  }

  // What is said of the first cycles does not depend on those that follow.
  lemma {:induction false} PrefixDecides(c: RetryConfig, pollIntervalMs: nat, a: seq<Outcome>, b: seq<Outcome>, n: nat)
    requires n <= |a| && a <= b
    ensures Streak(b, n) == Streak(a, n) && Waits(c, pollIntervalMs, b, n) == Waits(c, pollIntervalMs, a, n)
    ensures forall i :: 0 <= i < n ==> GivesUpAt(c, b, i) == GivesUpAt(c, a, i)
  {
    if n > 0 {
      PrefixDecides(c, pollIntervalMs, a, b, n - 1);
      assert b[n - 1] == a[n - 1];
    }
  }

  // What a streak means: that many failures, and before them a success or the beginning.
  lemma {:induction false} StreakMeans(outcomes: seq<Outcome>, n: nat)
    requires n <= |outcomes|
    ensures var k := Streak(outcomes, n);
            && k <= n && (forall i :: n - k <= i < n ==> outcomes[i].Failed?)
            && (k < n ==> outcomes[n - k - 1].Succeeded?)
  {
    if n > 0 && outcomes[n - 1].Failed? {
      StreakMeans(outcomes, n - 1);
    }
  }

  // The loop gives up at the end of the first maxRetries failures in a row, no earlier and no later.
  lemma GivesUpIff(c: RetryConfig, outcomes: seq<Outcome>, i: nat)
    requires i < |outcomes| && c.maxRetries > 0 && forall j :: 0 <= j < i ==> !GivesUpAt(c, outcomes, j)
    ensures GivesUpAt(c, outcomes, i) <==>
            i + 1 >= c.maxRetries && forall j :: i + 1 - c.maxRetries <= j <= i ==> outcomes[j].Failed?
    ensures GivesUpAt(c, outcomes, i) ==> Streak(outcomes, i + 1) == c.maxRetries
  {
    StreakMeans(outcomes, i + 1);
    if i > 0 && GivesUpAt(c, outcomes, i) { assert !GivesUpAt(c, outcomes, i - 1); }
  }

  function Delays(c: RetryConfig, k: nat): seq<int> {
    if k == 0 then [] else Delays(c, k - 1) + [Delay(c, k)]
  }

  // In a streak of k failures the waits are the delays of the attempts 1 to k, nothing between them.
  lemma {:induction false} StreakWaits(c: RetryConfig, pollIntervalMs: nat, outcomes: seq<Outcome>, n: nat)
    requires n <= |outcomes|
    ensures Streak(outcomes, n) <= n
    ensures Waits(c, pollIntervalMs, outcomes, n)
            == Waits(c, pollIntervalMs, outcomes, n - Streak(outcomes, n)) + Delays(c, Streak(outcomes, n))
  {
    if n > 0 && outcomes[n - 1].Failed? {
      StreakWaits(c, pollIntervalMs, outcomes, n - 1);
    }
  }

  // The cycles of a stretch that found nothing.
  function IdleCycles(outcomes: seq<Outcome>, m: nat, n: nat): set<nat>
    requires m <= n <= |outcomes|
  {
    set i: nat | m <= i < n && outcomes[i] == Succeeded(0)
  }

  // Over a stretch without failures the poll interval is waited once for each cycle that found nothing, and a cycle
  // that found something is followed by the next one at once.
  lemma {:induction false} QuietWaits(c: RetryConfig, pollIntervalMs: nat, outcomes: seq<Outcome>, m: nat, n: nat)
    requires m <= n <= |outcomes| && forall i :: m <= i < n ==> outcomes[i].Succeeded?
    ensures Waits(c, pollIntervalMs, outcomes, n)
            == Waits(c, pollIntervalMs, outcomes, m) + seq(|IdleCycles(outcomes, m, n)|, _ => pollIntervalMs)
    decreases n
  {
    if m == n {
      assert IdleCycles(outcomes, m, n) == {};
    } else {
      QuietWaits(c, pollIntervalMs, outcomes, m, n - 1);
      OneMoreIdle(outcomes, m, n);
      var k := |IdleCycles(outcomes, m, n - 1)|;
      var was := Waits(c, pollIntervalMs, outcomes, m);
      assert seq(k + 1, _ => pollIntervalMs) == seq(k, _ => pollIntervalMs) + [pollIntervalMs];
      assert was + seq(k, _ => pollIntervalMs) + [pollIntervalMs]
             == was + (seq(k, _ => pollIntervalMs) + [pollIntervalMs]);
    }
  }

  lemma OneMoreIdle(outcomes: seq<Outcome>, m: nat, n: nat)
    requires m < n <= |outcomes|
    ensures |IdleCycles(outcomes, m, n)|
            == |IdleCycles(outcomes, m, n - 1)| + if outcomes[n - 1] == Succeeded(0) then 1 else 0
  {
    var before, after := IdleCycles(outcomes, m, n - 1), IdleCycles(outcomes, m, n);
    if outcomes[n - 1] == Succeeded(0) {
      assert after == before + {n - 1} && n - 1 !in before;
    } else {
      assert after == before;
    }
  }

  function Sum(xs: seq<int>): int {
    if xs == [] then 0 else Sum(xs[..|xs| - 1]) + xs[|xs| - 1]
  }

  lemma DelaysTotal(c: RetryConfig, k: nat)
    ensures Sum(Delays(c, k + 1)) == Sum(Delays(c, k)) + Delay(c, k + 1)
  {
    assert Delays(c, k + 1)[..|Delays(c, k)|] == Delays(c, k);
  }

  // With the default configuration: 200, 400, 800 and 1600 ms, 3 s in all, before the fifth failure ends it.
  lemma DefaultBackoff(pollIntervalMs: nat, outcomes: seq<Outcome>, i: nat)
    requires i < |outcomes| && GivesUpAt(DEFAULT_RETRY_CONFIG, outcomes, i)
    requires forall j :: 0 <= j < i ==> !GivesUpAt(DEFAULT_RETRY_CONFIG, outcomes, j)
    ensures i >= 4
    ensures Waits(DEFAULT_RETRY_CONFIG, pollIntervalMs, outcomes, i)
            == Waits(DEFAULT_RETRY_CONFIG, pollIntervalMs, outcomes, i - 4) + Delays(DEFAULT_RETRY_CONFIG, 4)
    ensures Sum(Delays(DEFAULT_RETRY_CONFIG, 4)) == 3000
  {
    var c := DEFAULT_RETRY_CONFIG;
    GivesUpIff(c, outcomes, i);
    StreakWaits(c, pollIntervalMs, outcomes, i);
    DelayDoubles(c, 1);
    DelayDoubles(c, 2);
    DelayDoubles(c, 3);
    DelayDoubles(c, 4);
    assert Power2(1) == 2 && Power2(2) == 4 && Power2(3) == 8 && Power2(4) == 16;
    DelaysTotal(c, 0);
    DelaysTotal(c, 1);
    DelaysTotal(c, 2);
    DelaysTotal(c, 3);
  }
}

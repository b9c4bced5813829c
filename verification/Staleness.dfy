/** Which open pull requests are due for a staleness re-render, with their cadence
    jittered so that renders made together drift apart. */
module Staleness {
  import opened Prelude
  import opened Api
  import Store

  const TWO_64 := 0x1_0000_0000_0000_0000
  const MAX_DURATION := 0x7FFF_FFFF_FFFF_FFFF
  const MIN_DURATION := -0x8000_0000_0000_0000

  predicate IsDuration(d: int)
  {
    MIN_DURATION <= d <= MAX_DURATION
  }

  /** Two's-complement wrap-around of a 64-bit sum. */
  function Wrap(x: int): (d: int)
    ensures IsDuration(d)
    ensures IsDuration(x) ==> d == x
  {
    (x - MIN_DURATION) % TWO_64 + MIN_DURATION
  }

  /** time.Time.Sub: the difference, saturated to what a duration holds. */
  function Since(now: int, earlier: int): (d: int)
    ensures IsDuration(d)
  {
    if now - earlier > MAX_DURATION then MAX_DURATION
    else if now - earlier < MIN_DURATION then MIN_DURATION
    else now - earlier
  }

  /** Go's integer halving, which truncates toward zero. */
  function Half(d: int): int
  {
    if d >= 0 then d / 2 else -(-d / 2)
  }

  /** The Fibonacci hash of a PR number, in 64 bits: 2^64 over the golden ratio. */
  function Hash(number: int): (h: nat)
    ensures h < TWO_64
  {
    (number % TWO_64) * 11400714819323198485 % TWO_64
  }

  lemma Remainder(x: nat, m: nat)
    requires m > 0
    ensures 0 <= x % m < m
  {
  }

  function Jitter(number: int, interval: int): int
  {
    var spread := Half(interval);
    if spread <= 0 then 0 else Hash(number) % spread - spread / 2
  }

  /** The offset lies in [-due/4, due/4). */
  lemma JitterIsBounded(number: int, due: int)
    requires due > 0
    ensures -due <= 4 * Jitter(number, due) < due
  {
    var spread := Half(due);
    if spread > 0 {
      Remainder(Hash(number), spread);
    }
  }

  const INVERSE := 17428512612931826493
  const WRAPS := 10771413168148108919

  lemma MultiplierIsInvertible()
    ensures 11400714819323198485 * INVERSE == 1 + WRAPS * TWO_64
  {
  }

  lemma Undoes(a: nat, h: nat, q: nat, k: nat, c: nat, t: nat, m: nat)
    requires a * k == q * m + h && k * c == 1 + t * m
    ensures h * c == a + (a * t - q * c) * m
  {
    calc {
      h * c;
      (a * k - q * m) * c;
      a * (k * c) - q * m * c;
      a * (1 + t * m) - q * m * c;
      a + (a * t) * m - (q * c) * m;
      a + (a * t - q * c) * m;
    }
  }

  lemma Multiple(d: int, m: nat)
    requires d >= 1
    ensures d * m >= m
  {
  }

  lemma Distributes(x: int, y: int, m: nat)
    ensures (y - x) * m == y * m - x * m
  {
  }

  lemma OnlyOneRemainder(a: nat, b: nat, x: int, y: int, m: nat)
    requires a < m && b < m && a + x * m == b + y * m
    ensures a == b
  {
    if x < y {
      Multiple(y - x, m);
      Distributes(x, y, m);
    } else if y < x {
      Multiple(x - y, m);
      Distributes(y, x, m);
    }
  }

  lemma Division(x: nat, m: nat)
    requires m > 0
    ensures x == x / m * m + x % m
  {
  }

  lemma Small(a: nat, m: nat)
    requires a < m
    ensures a % m == a
  {
  }

  lemma HashQuotient(a: nat, k: nat, m: nat) returns (q: nat)
    requires m > a && m == TWO_64 && k == 11400714819323198485
    ensures a * k == q * m + Hash(a)
  {
    Small(a, m);
    q := a * k / m;
    Division(a * k, m);
  }

  /** The multiplication only permutes the 64-bit numbers: no two PRs share a hash. */
  lemma HashIsInjective(a: nat, b: nat)
    requires a < TWO_64 && b < TWO_64 && Hash(a) == Hash(b)
    ensures a == b
  {
    var k: nat, m: nat, c: nat, t: nat, h: nat := 11400714819323198485, TWO_64, INVERSE, WRAPS, Hash(a);
    var p := HashQuotient(a, k, m);
    var q := HashQuotient(b, k, m);
    MultiplierIsInvertible();
    SameFactor(a, b, h, p, q, k, c, t, m);
  }

  lemma SameFactor(a: nat, b: nat, h: nat, p: nat, q: nat, k: nat, c: nat, t: nat, m: nat)
    requires a < m && b < m && k * c == 1 + t * m
    requires a * k == p * m + h && b * k == q * m + h
    ensures a == b
  {
    Undoes(a, h, p, k, c, t, m);
    Undoes(b, h, q, k, c, t, m);
    OnlyOneRemainder(a, b, a * t - p * c, b * t - q * c, m);
  }

  /** Within its bounds the offset is the hash, up to whole spreads: it varies with the PR. */
  lemma JitterFollowsTheHash(number: int, due: int) returns (turns: nat)
    requires due > 1
    ensures Hash(number) == turns * (due / 2) + (Jitter(number, due) + due / 2 / 2)
  {
    turns := Hash(number) / (due / 2);
    Division(Hash(number), due / 2);
  }

  // ---- the deadline ----

  function Deadline(number: int, due: int): (d: int)
    ensures IsDuration(d)
  {
    Wrap(due + Jitter(number, due))
  }

  /** The slower cadence only for a clean last render of the current head. */
  function Cadence(j: Store.Job, interval: int, rerender: int): int
  {
    if rerender > 0 && j.refreshErr == "" && j.result.Some? && j.result.value.headSHA == j.pr.headSHA then rerender
    else interval
  }

  /** Open, visible and rendered at least once. */
  predicate Eligible(j: Store.Job)
  {
    !j.hidden && j.closedAt.None? && j.renderedAt.Some?
  }

  predicate Stale(j: Store.Job, now: int, interval: int, rerender: int)
  {
    Eligible(j) &&
    var due := Cadence(j, interval, rerender);
    Since(now, j.renderedAt.value) >= Deadline(j.pr.number, due)
  }

  /** A PR of this age is left out early in its cadence and listed late in it. */
  predicate Windowed(listed: bool, age: int, cadence: int)
  {
    && (0 < cadence && 5 * cadence <= 4 * MAX_DURATION && 4 * age < 3 * cadence ==> !listed)
    && (0 < cadence <= MAX_DURATION && 4 * age >= 5 * cadence ==> listed)
  }

  /** `pr` is a tracked PR that is due. */
  predicate Due(jobs: map<int, Store.Job>, pr: PR, now: int, interval: int, rerender: int)
  {
    pr.number in jobs && jobs[pr.number].pr == pr && Stale(jobs[pr.number], now, interval, rerender)
  }

  method StalePRs(jobs: map<int, Store.Job>, now: int, interval: int, rerender: int) returns (out: seq<PR>)
    requires forall n :: n in jobs ==> jobs[n].pr.number == n
    ensures forall pr :: pr in out <==> Due(jobs, pr, now, interval, rerender)
    ensures forall i, k :: 0 <= i < k < |out| ==> out[i].number != out[k].number
    ensures forall n :: n in jobs && (jobs[n].hidden || jobs[n].closedAt.Some? || jobs[n].renderedAt.None?) ==> jobs[n].pr !in out
    ensures forall n :: n in jobs ==> InItsWindow(jobs[n], jobs[n].pr in out, now, interval, rerender)
  {
    out := [];
    var todo := jobs.Keys;
    while todo != {}
      invariant todo <= jobs.Keys
      invariant forall pr :: pr in out <==> pr.number !in todo && Due(jobs, pr, now, interval, rerender)
      invariant forall i, k :: 0 <= i < k < |out| ==> out[i].number != out[k].number
      decreases |todo|
    {
      ghost var member := SomeMember(todo);
      var n :| n in todo;
      todo := todo - {n};
      var stale := IsStale(jobs[n], now, interval, rerender);
      if stale {
        assert forall i :: 0 <= i < |out| ==> out[i] in out;
        out := out + [jobs[n].pr];
      }
    }
    forall n | n in jobs
      ensures InItsWindow(jobs[n], jobs[n].pr in out, now, interval, rerender)
    {
      StaleInItsWindow(jobs[n], now, interval, rerender);
      assert jobs[n].pr in out <==> Due(jobs, jobs[n].pr, now, interval, rerender);
    }
  }

  /** An open, visible, rendered PR goes by `rerender` while its head is unchanged since a
      clean render, and by `interval` otherwise. */
  predicate InItsWindow(j: Store.Job, listed: bool, now: int, interval: int, rerender: int)
  {
    !j.hidden && j.closedAt.None? && j.renderedAt.Some? ==>
      var age := now - j.renderedAt.value;
      var settled := j.refreshErr == "" && j.result.Some? && j.result.value.headSHA == j.pr.headSHA;
      && (settled && rerender > 0 ==> Windowed(listed, age, rerender))
      && (!settled || rerender <= 0 ==> Windowed(listed, age, interval))
  }

  lemma StaleInItsWindow(j: Store.Job, now: int, interval: int, rerender: int)
    ensures InItsWindow(j, Stale(j, now, interval, rerender), now, interval, rerender)
  {
    if Eligible(j) {
      var age, due := now - j.renderedAt.value, Cadence(j, interval, rerender);
      if 0 < due && 5 * due <= 4 * MAX_DURATION && 4 * age < 3 * due {
        RealCadencesFit(j.pr.number, due);
        NeverEarly(j, now, interval, rerender);
      }
      if 0 < due <= MAX_DURATION && 4 * age >= 5 * due {
        NeverLate(j, now, interval, rerender);
      }
      assert Windowed(Stale(j, now, interval, rerender), age, due);
    }
  }

  method IsStale(j: Store.Job, now: int, interval: int, rerender: int) returns (stale: bool)
    ensures stale == Stale(j, now, interval, rerender)
  {
    if j.hidden || j.closedAt.Some? || j.renderedAt.None? {
      return false;
    }
    var due := interval;
    if rerender > 0 && j.refreshErr == "" && j.result.Some? && j.result.value.headSHA == j.pr.headSHA {
      due := rerender;
    }
    return Since(now, j.renderedAt.value) >= Deadline(j.pr.number, due);
  }

  // ---- the window ----

  /** A PR rendered less than three quarters of its cadence ago is not stale, provided
      the jittered deadline fits a duration. */
  lemma NeverEarly(j: Store.Job, now: int, interval: int, rerender: int)
    requires Eligible(j)
    requires var due := Cadence(j, interval, rerender);
             && due > 0 && due + Jitter(j.pr.number, due) <= MAX_DURATION
             && 4 * (now - j.renderedAt.value) < 3 * due
    ensures !Stale(j, now, interval, rerender)
  {
    var due := Cadence(j, interval, rerender);
    JitterIsBounded(j.pr.number, due);
    assert Deadline(j.pr.number, due) == due + Jitter(j.pr.number, due);
  }

  /** A PR rendered more than five quarters of its cadence ago always is. */
  lemma NeverLate(j: Store.Job, now: int, interval: int, rerender: int)
    requires Eligible(j)
    requires var due := Cadence(j, interval, rerender);
             0 < due <= MAX_DURATION && 4 * (now - j.renderedAt.value) >= 5 * due
    ensures Stale(j, now, interval, rerender)
  {
    var due := Cadence(j, interval, rerender);
    JitterIsBounded(j.pr.number, due);
  }

  /** The early bound holds for every age exactly when the jittered deadline does not
      overflow; once it does, it is negative and even a fresh render is stale. */
  lemma EarlyBoundNeedsRoom(number: int, due: int)
    requires 0 < due <= MAX_DURATION
    ensures (forall age :: IsDuration(age) && 4 * age < 3 * due ==> age < Deadline(number, due))
            <==> due + Jitter(number, due) <= MAX_DURATION
  {
    JitterIsBounded(number, due);
    var sum := due + Jitter(number, due);
    if sum > MAX_DURATION {
      assert Wrap(sum) == sum - TWO_64;
      assert IsDuration(0) && 4 * 0 < 3 * due && !(0 < Deadline(number, due));
    }
  }

  /** Any cadence up to four fifths of the largest duration leaves room. */
  lemma RealCadencesFit(number: int, due: int)
    requires 0 < due && 5 * due <= 4 * MAX_DURATION
    ensures due + Jitter(number, due) <= MAX_DURATION
  {
    JitterIsBounded(number, due);
  }

  /** Without a positive cadence there is no jitter: the deadline is the cadence itself. */
  lemma NoCadenceNoJitter(number: int, due: int)
    requires MIN_DURATION <= due <= 1
    ensures Deadline(number, due) == due
  {
  }
}

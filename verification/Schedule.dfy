/** Slot arithmetic and retry delays of the job scheduler. */
module Schedule {
  import opened Arithmetic
  import opened Common

  /** Run every N seconds, on slots aligned to `anchor` (the epoch when absent). */
  datatype JobSchedule = JobSchedule(everySeconds: int, anchor: Option<Time>)
  {
    predicate Valid() {
      0 < everySeconds
    }

    function Period(): int {
      everySeconds * 1000
    }

    function Anchor(): Time {
      if anchor.Some? then anchor.value else 0
    }
  }

  /** Rounds the quotient up; Dafny's division by a positive number rounds down. */
  function CeilDiv(n: int, d: int): int
    requires 0 < d
  {
    -((-n) / d)
  }

  function SlotAtOrAfter(s: JobSchedule, at: Time): Time
    requires s.Valid()
  {
    s.Anchor() + CeilDiv(at - s.Anchor(), s.Period()) * s.Period()
  }

  function NextSlot(s: JobSchedule, slot: Time, now: Time): Time
    requires s.Valid()
  {
    var following := slot + s.Period();
    if now < following then following else SlotAtOrAfter(s, now + 1)
  }

  const RETRY_BASE_MS := 30_000
  const RETRY_CAP_MS := 15 * 60_000

  function RetryDelayMs(attempt: int): int {
    var delay := RETRY_BASE_MS * Pow2(if attempt < 1 then 0 else attempt - 1);
    if delay < RETRY_CAP_MS then delay else RETRY_CAP_MS
  }

  // --- slots ---------------------------------------------------------------------

  /** A slot boundary of the schedule. */
  ghost predicate Aligned(s: JobSchedule, t: Time) {
    exists k: int :: t == Boundary(s, k)
  }

  function Boundary(s: JobSchedule, k: int): Time {
    s.Anchor() + k * s.Period()
  }

  lemma MultipleLeavesNothing(k: int, d: int)
    requires 0 < d
    ensures (k * d) % d == 0
  {
    var q, r := (k * d) / d, (k * d) % d;
    assert k * d == q * d + r;
    if q < k {
      MultiplesApart(q, k, d);
    } else if k < q {
      MultiplesApart(k, q, d);
    }
  }

  /** The boundaries lie a whole number of intervals from the anchor, which is the epoch unless one is given. */
  lemma BoundariesAre(s: JobSchedule, t: Time)
    requires s.Valid()
    ensures Aligned(s, t) <==> (t - if s.anchor.Some? then s.anchor.value else 0) % (s.everySeconds * 1000) == 0
  {
    var from := if s.anchor.Some? then s.anchor.value else 0;
    var period := s.everySeconds * 1000;
    if Aligned(s, t) {
      var k: int :| t == Boundary(s, k);
      MultipleLeavesNothing(k, period);
    }
    if (t - from) % period == 0 {
      var k := (t - from) / period;
      assert t == Boundary(s, k);
    }
  }

  lemma CeilDivBounds(n: int, d: int)
    requires 0 < d
    ensures n <= CeilDiv(n, d) * d < n + d
  {
  }

  /** The least slot boundary at or after a time. */
  lemma SlotAtOrAfterIsLeast(s: JobSchedule, at: Time, other: Time)
    requires s.Valid()
    ensures Aligned(s, SlotAtOrAfter(s, at)) && at <= SlotAtOrAfter(s, at)
    ensures Aligned(s, other) && at <= other ==> SlotAtOrAfter(s, at) <= other
  {
    var k := CeilDiv(at - s.Anchor(), s.Period());
    CeilDivBounds(at - s.Anchor(), s.Period());
    assert SlotAtOrAfter(s, at) == Boundary(s, k);
    if Aligned(s, other) && at <= other {
      var j: int :| other == Boundary(s, j);
      if j < k {
        MultiplesApart(j, k, s.Period());
      } else if k < j {
        MultiplesApart(k, j, s.Period());
      }
    }
  }

  /** Whatever the slot and the clock say, the next slot lies after both. */
  lemma NextSlotAdvances(s: JobSchedule, slot: Time, now: Time)
    requires s.Valid()
    ensures slot < NextSlot(s, slot, now) && now < NextSlot(s, slot, now)
  {
    SlotAtOrAfterIsLeast(s, now + 1, 0);
  }

  lemma FollowingAligned(s: JobSchedule, slot: Time)
    requires s.Valid() && Aligned(s, slot)
    ensures Aligned(s, slot + s.Period())
    ensures forall t | Aligned(s, t) && slot < t :: slot + s.Period() <= t
  {
    var k: int :| slot == Boundary(s, k);
    assert slot + s.Period() == Boundary(s, k + 1);
    forall t | Aligned(s, t) && slot < t
      ensures slot + s.Period() <= t
    {
      var j: int :| t == Boundary(s, j);
      if j < k {
        MultiplesApart(j, k, s.Period());
      } else if k < j {
        MultiplesApart(k, j, s.Period());
      }
    }
  }

  /** From an aligned slot, the next slot is the least boundary after both the slot and now. */
  lemma NextSlotIsLeast(s: JobSchedule, slot: Time, now: Time, other: Time)
    requires s.Valid() && Aligned(s, slot)
    ensures Aligned(s, NextSlot(s, slot, now))
    ensures Aligned(s, other) && slot < other && now < other ==> NextSlot(s, slot, now) <= other
  {
    FollowingAligned(s, slot);
    SlotAtOrAfterIsLeast(s, now + 1, other);
  }

  // --- retries --------------------------------------------------------------------

  lemma {:induction false} Pow2Grows(n: nat, m: nat)
    requires n <= m
    ensures 1 <= Pow2(n) <= Pow2(m)
    decreases m
  {
    if n < m {
      Pow2Grows(n, m - 1);
    } else if n > 0 {
      Pow2Grows(n - 1, n - 1);
    }
  }

  /** Retries wait at least the base delay, never more than the cap, and each at least as long as the last. */
  lemma RetryDelayGrows(attempt: int, later: int)
    requires attempt <= later
    ensures RETRY_BASE_MS <= RetryDelayMs(attempt) <= RetryDelayMs(later) <= RETRY_CAP_MS
  {
    Pow2Grows(if attempt < 1 then 0 else attempt - 1, if later < 1 then 0 else later - 1);
  }

  /** Below the cap every retry doubles the delay. */
  lemma RetryDelayDoubles(attempt: int)
    requires 1 <= attempt
    ensures RetryDelayMs(1) == RETRY_BASE_MS
    ensures RetryDelayMs(attempt + 1) ==
      if 2 * RetryDelayMs(attempt) < RETRY_CAP_MS then 2 * RetryDelayMs(attempt) else RETRY_CAP_MS
  {
    assert Pow2(attempt) == 2 * Pow2(attempt - 1);
  }
}

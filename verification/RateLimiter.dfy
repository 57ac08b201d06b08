/** Pacing: each call waits for its slot on a fixed grid of times, in nanoseconds. */
module RateLimiter {
  import opened Wrappers

  const SECOND := 1000000000

  /** The distance of two slots; zero switches the limiter off. */
  function Interval(ratePerSec: real): int {
    if ratePerSec <= 0.0 then 0 else (SECOND as real / ratePerSec).Floor
  }

  /** The interval is the largest number of whole nanoseconds at which `ratePerSec` calls still
      fit a second. */
  lemma IntervalFits(ratePerSec: real)
    requires ratePerSec > 0.0
    ensures var interval := Interval(ratePerSec);
            && interval >= 0
            && interval as real * ratePerSec <= SECOND as real < (interval + 1) as real * ratePerSec
  {
    var q := SECOND as real / ratePerSec;
    var interval := Interval(ratePerSec);
    assert q * ratePerSec == SECOND as real;
    assert interval as real <= q < interval as real + 1.0;
    assert (q - interval as real) * ratePerSec >= 0.0;
    assert (interval as real + 1.0 - q) * ratePerSec > 0.0;
  }

  /** One call: when it is made, and how much longer than asked it sleeps if it sleeps. */
  datatype Call = Call(now: int, oversleep: nat)

  /** The slot that a call at `now` waits for. */
  function Slot(next: Option<int>, now: int): int {
    if next.Some? then next.value else now
  }

  /** When the call returns. */
  function Returned(interval: int, next: Option<int>, c: Call): int {
    if interval <= 0 || Slot(next, c.now) <= c.now then c.now else Slot(next, c.now) + c.oversleep
  }

  /** The slot for the call after it. */
  function NextSlot(interval: int, next: Option<int>, c: Call): Option<int> {
    if interval <= 0 then next else Some(Slot(next, c.now) + interval)
  }

  class Limiter {
    const interval: int
    var next: Option<int>

    constructor (ratePerSec: real)
      ensures interval == Interval(ratePerSec) && next == None
      ensures ratePerSec <= 0.0 ==> interval == 0
      ensures ratePerSec > 0.0 ==>
                interval >= 0 && interval as real * ratePerSec <= SECOND as real < (interval + 1) as real * ratePerSec
    {
      if ratePerSec > 0.0 {
        IntervalFits(ratePerSec);
      }
      interval := if ratePerSec <= 0.0 then 0 else (SECOND as real / ratePerSec).Floor;
      next := None;
    }

    method Wait(c: Call) returns (back: int)
      modifies this
      ensures back == Returned(interval, old(next), c) && next == NextSlot(interval, old(next), c)
    {
      if interval <= 0 {
        return c.now;
      }
      back := c.now;
      if next.None? {
        next := Some(c.now);
      }
      var delay := next.value - c.now;
      if delay > 0 {
        back := back + delay + c.oversleep;
      }
      next := Some(next.value + interval);
    }
  }

  // ---------- Whole runs ----------

  /** The next slot once the first `k` calls are made. */
  function NextAfter(interval: int, calls: seq<Call>, k: nat): Option<int>
    requires k <= |calls|
  {
    if k == 0 then None else NextSlot(interval, NextAfter(interval, calls, k - 1), calls[k - 1])
  }

  /** When call `k`, counted from zero, returns. */
  function ReturnedAt(interval: int, calls: seq<Call>, k: nat): int
    requires k < |calls|
  {
    Returned(interval, NextAfter(interval, calls, k), calls[k])
  }

  /** No call is made before the one before it is back. */
  predicate InOrder(interval: int, calls: seq<Call>) {
    forall k | 0 < k < |calls| :: calls[k].now >= ReturnedAt(interval, calls, k - 1)
  }

  /** The slots are a grid: the caller's own time never moves them, so nothing drifts. */
  lemma {:induction false} SlotsAreAGrid(interval: int, calls: seq<Call>, k: nat)
    requires interval > 0 && 0 < k <= |calls|
    ensures NextAfter(interval, calls, k) == Some(calls[0].now + k * interval)
  {
    if k > 1 {
      SlotsAreAGrid(interval, calls, k - 1);
      assert k * interval == (k - 1) * interval + interval;
    }
  }

  /** Call `k` is not back before slot `k`. It is back right on the slot exactly when it
      comes no later than that and, if it sleeps, sleeps no longer than asked. */
  lemma BackNoEarlier(interval: int, calls: seq<Call>, k: nat)
    requires interval > 0 && k < |calls|
    ensures var slot := calls[0].now + k * interval;
            && ReturnedAt(interval, calls, k) >= slot
            && (ReturnedAt(interval, calls, k) == slot <==>
                  calls[k].now == slot || (calls[k].now < slot && calls[k].oversleep == 0))
            && (calls[k].now >= slot ==> ReturnedAt(interval, calls, k) == calls[k].now)
  {
    if k > 0 {
      SlotsAreAGrid(interval, calls, k);
    }
  }

  lemma {:induction false} ReturnsGrow(interval: int, calls: seq<Call>, j: nat, k: nat)
    requires interval > 0 && InOrder(interval, calls) && j <= k < |calls|
    ensures ReturnedAt(interval, calls, j) <= ReturnedAt(interval, calls, k)
  {
    if j < k {
      ReturnsGrow(interval, calls, j, k - 1);
      assert calls[k].now >= ReturnedAt(interval, calls, k - 1);
    }
  }

  /** The promised rate: once `k + 1` calls are back, at least `k` intervals have passed since
      the first was made; and they all came back in between. */
  lemma RateIsKept(interval: int, calls: seq<Call>, k: nat, time: int)
    requires interval > 0 && InOrder(interval, calls) && k < |calls| && ReturnedAt(interval, calls, k) <= time
    ensures k * interval <= time - calls[0].now
    ensures forall j | 0 <= j <= k :: calls[0].now <= ReturnedAt(interval, calls, j) <= time
  {
    BackNoEarlier(interval, calls, k);
    forall j | 0 <= j <= k
      ensures calls[0].now <= ReturnedAt(interval, calls, j) <= time
    {
      ReturnsGrow(interval, calls, 0, j);
      ReturnsGrow(interval, calls, j, k);
    }
  }

  /** A limiter that is switched off returns every call at once and keeps no slot. */
  lemma {:induction false} OffReturnsAtOnce(interval: int, calls: seq<Call>, k: nat)
    requires interval <= 0 && k < |calls|
    ensures ReturnedAt(interval, calls, k) == calls[k].now && NextAfter(interval, calls, k).None?
  {
    if k > 0 {
      OffReturnsAtOnce(interval, calls, k - 1);
    }
  }

  /** Every rate above one call in a nanosecond is no limit, like zero. */
  lemma SwitchedOff(ratePerSec: real)
    ensures Interval(ratePerSec) > 0 <==> 0.0 < ratePerSec <= SECOND as real
  {
    if ratePerSec > 0.0 {
      var q := SECOND as real / ratePerSec;
      assert q * ratePerSec == SECOND as real;
      if q >= 1.0 {
        assert (q - 1.0) * ratePerSec >= 0.0;
      } else {
        assert (1.0 - q) * ratePerSec > 0.0;
      }
    }
  }
}

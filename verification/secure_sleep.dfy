/**
  `secure_sleep`: wait until a measured elapsed time reaches the requested
  length, in sleeps of at most a minute.

  The wall clock is a parameter: `clock(k)` is the value of the k-th call of
  `time.time()` in milliseconds. The first reading is the start, the second
  the first measurement, and each later reading follows one sleep. As written,
  each sleep lasts as long as the time measured so far (capped at a minute),
  not as long as the time still missing, so the loop makes progress only
  because reading the clock itself takes time; the model demands that every
  reading be later than the one before.
*/
module SecureSleep {

  /** The longest single sleep, one minute. */
  const Cap: nat := 60000

  /** Every clock reading is later than the readings before it. */
  ghost predicate Advancing(clock: nat -> nat) {
    forall i, j :: 0 <= i < j ==> clock(i) < clock(j)
  }

  /** The length of the sleep issued when `gap` has elapsed. */
  function Nap(gap: nat): (d: nat)
    ensures d <= Cap && d <= gap
    ensures gap >= Cap ==> d == Cap
  {
    if gap < Cap then gap else Cap
  }

  /** Returns the sleeps issued, in order, and the elapsed time measured last. */
  method Wait(length: int, clock: nat -> nat) returns (naps: seq<nat>, elapsed: int)
    requires Advancing(clock)
    ensures elapsed >= length
    ensures elapsed == clock(|naps| + 1) - clock(0)
    ensures forall k :: 0 <= k < |naps| ==> naps[k] <= Cap
    ensures forall k :: 1 <= k <= |naps| ==> clock(k) - clock(0) < length
    ensures forall k :: 0 <= k < |naps| ==> naps[k] == Nap(clock(k + 1) - clock(0))
    ensures length <= 0 ==> naps == []
  {
    var start := clock(0);
    var readings: nat := 1;
    var gap := clock(1) - start;
    naps := [];
    while gap < length
      invariant readings == |naps| + 1
      invariant gap == clock(readings) - start
      invariant gap >= readings
      invariant forall k :: 1 <= k <= |naps| ==> clock(k) - start < length
      invariant forall k :: 0 <= k < |naps| ==> naps[k] == Nap(clock(k + 1) - start)
      decreases length - gap
    {
      naps := naps + [Nap(gap)];
      readings := readings + 1;
      assert clock(readings - 1) < clock(readings);
      gap := clock(readings) - start;
    }
    elapsed := gap;
  }
}

/** The two timed retry machines of the worker: restoring while switched off, and reinstalling the
    event hook. Times are milliseconds on one clock. */
module Control {
  import opened Model
  import opened Arithmetic
  import opened Desktop
  import opened Engine

  /** When the next attempt is allowed, and how many have failed in a row. */
  datatype RetryState = RetryState(next: Option<int>, failures: nat) {
    predicate Due(now: int) { next.Some? ==> now >= next.value }
  }

  const READY := RetryState(None, 0)

  datatype Cadence = OffRestoreCadence | HookCadence

  /** How long to hold off after the given number of failures in a row. */
  function Delay(c: Cadence, failures: nat): int {
    var doublings := Min(Max(failures - 1, 0), 5);
    match c
    case OffRestoreCadence => Min(200 * Pow2(doublings), 5000)
    case HookCadence => 1000 * Pow2(doublings)
  }

  function Failed(c: Cadence, r: RetryState, now: int): RetryState {
    var failures := SaturatingInc(r.failures);
    RetryState(Some(now + Delay(c, failures)), failures)
  }

  /** How long the worker may sleep before looking again. */
  function Wait(c: Cadence, r: RetryState, now: int): int {
    match r.next
    case None => (match c case OffRestoreCadence => 1000 case HookCadence => 32000)
    case Some(at) => Max(at - now, 0)
  }

  /** One call of the off-restore machine: nothing held resets it, a call that is not due does nothing,
      and a drain either clears it or pushes the next one back. `failures` is what the drain left. */
  function OffStep(r: RetryState, apply: bool, held: bool, failures: nat, now: int): RetryState {
    if !apply then r
    else if !held then READY
    else if !r.Due(now) then r
    else if failures == 0 then READY
    else Failed(OffRestoreCadence, r, now)
  }

  predicate Drains(r: RetryState, apply: bool, held: bool, now: int) { apply && held && r.Due(now) }

  class OffRestore {
    var next: Option<int>
    var failures: nat

    constructor ()
      ensures State() == READY
    {
      next, failures := None, 0;
    }

    function State(): RetryState
      reads this
    {
      RetryState(next, failures)
    }

    method Reset()
      modifies this
      ensures State() == READY
    {
      next := None;
      failures := 0;
    }

    /** Drain what is held if it is time to. */
    method Retry(api: Desktop, caches: EngineCaches, apply: bool, now: int) returns (count: nat, ghost order: seq<Snapshot>)
      requires Keyed(caches.snapshots)
      modifies this, api, caches
      ensures State() == OffStep(old(State()), apply, old(caches.snapshots) != map[], count, now)
      ensures if Drains(old(State()), apply, old(caches.snapshots) != map[], now)
              then IsOrder(order, old(caches.snapshots), map[])
                   && (caches.Holding(api), count) == Drain(old(caches.Holding(api)), order)
              else api.State() == old(api.State()) && caches.snapshots == old(caches.snapshots)
    {
      count, order := 0, [];
      if !apply {
        return;
      }
      if caches.snapshots == map[] {
        Reset();
        return;
      }
      if next.Some? && now < next.value {
        return;
      }
      count, order := caches.DrainRestoreAll(api);
      if count == 0 {
        Reset();
      } else {
        failures := SaturatingInc(failures);
        next := Some(now + Delay(OffRestoreCadence, failures));
      }
    }

    method Remaining(now: int) returns (wait: int)
      ensures wait == Wait(OffRestoreCadence, State(), now)
    {
      wait := if next.Some? then Max(next.value - now, 0) else 1000;
    }
  }

  class HookRetry {
    var next: Option<int>
    var failures: nat

    constructor ()
      ensures State() == READY
    {
      next, failures := None, 0;
    }

    function State(): RetryState
      reads this
    {
      RetryState(next, failures)
    }

    method Reset()
      modifies this
      ensures State() == READY
    {
      next := None;
      failures := 0;
    }

    method RecordFailure(now: int)
      modifies this
      ensures State() == Failed(HookCadence, old(State()), now)
    {
      failures := SaturatingInc(failures);
      next := Some(now + Delay(HookCadence, failures));
    }
  }

  /** The counter of failures stops at the largest 32-bit number. */
  lemma FailuresSaturate(c: Cadence, r: RetryState, now: int)
    requires r.failures <= 0xffff_ffff
    ensures Failed(c, r, now).failures == if r.failures == 0xffff_ffff then r.failures else r.failures + 1
    ensures Failed(c, r, now).next.Some? && Failed(c, r, now).next.value > now
  {
    PowersOfTwo();
    assert Min(Max(r.failures, 0), 5) in {0, 1, 2, 3, 4, 5};
  }

  // ---------------------------------------------------------------- rate bounds

  /** The times of the attempts among calls at `times`, when every attempt fails. */
  function Attempts(c: Cadence, r: RetryState, times: seq<int>): seq<int>
    decreases times
  {
    if times == [] then []
    else if r.Due(times[0]) then [times[0]] + Attempts(c, Failed(c, r, times[0]), times[1..])
    else Attempts(c, r, times[1..])
  }

  /** Total hold-off after `k` further failures. */
  function HoldOff(c: Cadence, failures: nat, k: nat): int
    decreases k
  {
    if k == 0 then 0 else Delay(c, SaturatingInc(failures)) + HoldOff(c, SaturatingInc(failures), k - 1)
  }

  /** The times at which calls of the off-restore machine drain; `left` is what each drain would leave behind. */
  function DrainTimes(r: RetryState, times: seq<int>, left: seq<nat>): seq<int>
    requires |left| == |times|
    decreases times
  {
    if times == [] then []
    else
      (if Drains(r, true, true, times[0]) then [times[0]] else [])
      + DrainTimes(OffStep(r, true, true, left[0], times[0]), times[1..], left[1..])
  }

  /** While every drain leaves something behind, the machine drains exactly at the attempts of its cadence. */
  lemma {:induction false} FailingDrainsAreAttempts(r: RetryState, times: seq<int>, left: seq<nat>)
    requires |left| == |times| && forall i | 0 <= i < |left| :: left[i] > 0
    ensures DrainTimes(r, times, left) == Attempts(OffRestoreCadence, r, times)
    decreases times
  {
    if times != [] {
      FailingDrainsAreAttempts(if r.Due(times[0]) then Failed(OffRestoreCadence, r, times[0]) else r, times[1..], left[1..]);
    }
  }

  /** A call without permission changes nothing; one with nothing held, or whose drain leaves nothing behind,
      forgets all failures, so the next drain is due whenever it comes. */
  lemma CleanCallsReset(r: RetryState, apply: bool, held: bool, left: nat, now: int)
    ensures var r' := OffStep(r, apply, held, left, now);
            && (!apply ==> r' == r)
            && (apply && (!held || (r.Due(now) && left == 0)) ==> r'.failures == 0 && forall later: int :: r'.Due(later))
  {
  }

  predicate NonDecreasing(times: seq<int>) { forall i, j | 0 <= i < j < |times| :: times[i] <= times[j] }

  lemma {:induction false} AttemptsAreLater(c: Cadence, r: RetryState, times: seq<int>)
    requires NonDecreasing(times)
    ensures forall i | 0 <= i < |Attempts(c, r, times)| ::
              (r.next.Some? ==> Attempts(c, r, times)[i] >= r.next.value) && Attempts(c, r, times)[i] in times
    decreases times
  {
    if times != [] {
      if r.Due(times[0]) {
        AttemptsAreLater(c, Failed(c, r, times[0]), times[1..]);
        forall i | 1 <= i < |Attempts(c, r, times)|
          ensures (r.next.Some? ==> Attempts(c, r, times)[i] >= r.next.value) && Attempts(c, r, times)[i] in times
        {
          var a := Attempts(c, Failed(c, r, times[0]), times[1..])[i - 1];
          assert a in times[1..];
          assert a >= Failed(c, r, times[0]).next.value >= times[0];
        }
      } else {
        AttemptsAreLater(c, r, times[1..]);
      }
    }
  }

  /** Between the first attempt and the one `k` later lies the whole hold-off, whenever and however often
      the machine is asked. */
  lemma {:induction false} AttemptsAreSpaced(c: Cadence, r: RetryState, times: seq<int>, k: nat)
    requires NonDecreasing(times) && k < |Attempts(c, r, times)|
    ensures Attempts(c, r, times)[k] - Attempts(c, r, times)[0] >= HoldOff(c, r.failures, k)
    decreases times
  {
    if !r.Due(times[0]) {
      AttemptsAreSpaced(c, r, times[1..], k);
    } else if k > 0 {
      var r' := Failed(c, r, times[0]);
      var rest := Attempts(c, r', times[1..]);
      AttemptsAreSpaced(c, r', times[1..], k - 1);
      AttemptsAreLater(c, r', times[1..]);
      assert rest[0] >= r'.next.value;
    }
  }

  /** The hold-off in closed form, from a machine without failures: the partial sums of
      200, 400, 800, 1600, 3200 and then 5000 for each further attempt. */
  lemma {:induction false} OffHoldOff(k: nat)
    ensures HoldOff(OffRestoreCadence, 0, k)
         == if k == 0 then 0 else if k == 1 then 200 else if k == 2 then 600 else if k == 3 then 1400
            else if k == 4 then 3000 else if k == 5 then 6200 else 6200 + 5000 * (k - 5)
  {
    OffDelays();
    if k >= 1 { HoldOffUnfolds(OffRestoreCadence, 0, k); }
    if k >= 2 { HoldOffUnfolds(OffRestoreCadence, 1, k - 1); }
    if k >= 3 { HoldOffUnfolds(OffRestoreCadence, 2, k - 2); }
    if k >= 4 { HoldOffUnfolds(OffRestoreCadence, 3, k - 3); }
    if k >= 5 {
      HoldOffUnfolds(OffRestoreCadence, 4, k - 4);
      HoldOffSteady(OffRestoreCadence, 5, k - 5);
    }
  }

  lemma HoldOffUnfolds(c: Cadence, failures: nat, k: nat)
    requires k > 0
    ensures HoldOff(c, failures, k) == Delay(c, SaturatingInc(failures)) + HoldOff(c, SaturatingInc(failures), k - 1)
  {
  }

  lemma PowersOfTwo()
    ensures Pow2(0) == 1 && Pow2(1) == 2 && Pow2(2) == 4 && Pow2(3) == 8 && Pow2(4) == 16 && Pow2(5) == 32
  {
    assert Pow2(2) == 4;
    assert Pow2(4) == 4 * Pow2(2);
  }

  lemma OffDelays()
    ensures Delay(OffRestoreCadence, 1) == 200 && Delay(OffRestoreCadence, 2) == 400 && Delay(OffRestoreCadence, 3) == 800
    ensures Delay(OffRestoreCadence, 4) == 1600 && Delay(OffRestoreCadence, 5) == 3200
  {
    PowersOfTwo();
  }

  /** From the sixth failure on the delay no longer grows. */
  lemma {:induction false} HoldOffSteady(c: Cadence, failures: nat, k: nat)
    requires failures >= 5
    ensures HoldOff(c, failures, k) == k * (match c case OffRestoreCadence => 5000 case HookCadence => 32000)
    decreases k
  {
    PowersOfTwo();
    if k > 0 {
      HoldOffSteady(c, SaturatingInc(failures), k - 1);
      assert Delay(c, SaturatingInc(failures)) == (match c case OffRestoreCadence => 5000 case HookCadence => 32000);
    }
  }

  /** With every drain failing and no reset, the k-th drain comes at least this long after the first. */
  lemma OffDrainsAreBounded(times: seq<int>, left: seq<nat>, k: nat)
    requires NonDecreasing(times) && |left| == |times| && forall i | 0 <= i < |left| :: left[i] > 0
    requires 1 <= k <= |DrainTimes(READY, times, left)|
    ensures var d := DrainTimes(READY, times, left);
            d[k - 1] - d[0] >= (if k >= 6 then 200 + 400 + 800 + 1600 + 3200 + 5000 * (k - 6)
                                else if k == 5 then 3000 else if k == 4 then 1400 else if k == 3 then 600 else if k == 2 then 200 else 0)
  {
    FailingDrainsAreAttempts(READY, times, left);
    AttemptsAreSpaced(OffRestoreCadence, READY, times, k - 1);
    OffHoldOff(k - 1);
  }

  lemma HookDelays()
    ensures Delay(HookCadence, 1) == 1000 && Delay(HookCadence, 2) == 2000 && Delay(HookCadence, 3) == 4000
    ensures Delay(HookCadence, 4) == 8000 && Delay(HookCadence, 5) == 16000
  {
    PowersOfTwo();
  }

  lemma HookHoldOff(k: nat)
    ensures HoldOff(HookCadence, 0, k) == if k <= 5 then 1000 * (Pow2(k) - 1) else 31000 + 32000 * (k - 5)
  {
    HookDelays();
    PowersOfTwo();
    if k >= 1 { HoldOffUnfolds(HookCadence, 0, k); }
    if k >= 2 { HoldOffUnfolds(HookCadence, 1, k - 1); }
    if k >= 3 { HoldOffUnfolds(HookCadence, 2, k - 2); }
    if k >= 4 { HoldOffUnfolds(HookCadence, 3, k - 3); }
    if k >= 5 {
      HoldOffUnfolds(HookCadence, 4, k - 4);
      HoldOffSteady(HookCadence, 5, k - 5);
    }
  }

  /** With every installation failing, the k-th one comes at least the sum of the first k - 1 delays of
      1, 2, 4, 8, 16 and then 32 seconds after the first. */
  lemma HookInstallsAreBounded(times: seq<int>, k: nat)
    requires NonDecreasing(times) && 1 <= k <= |Attempts(HookCadence, READY, times)|
    ensures var d := Attempts(HookCadence, READY, times);
            d[k - 1] - d[0] >= (if k >= 6 then 1000 + 2000 + 4000 + 8000 + 16000 + 32000 * (k - 6)
                                else if k == 5 then 15000 else if k == 4 then 7000 else if k == 3 then 3000 else if k == 2 then 1000 else 0)
  {
    AttemptsAreSpaced(HookCadence, READY, times, k - 1);
    HookHoldOff(k - 1);
    PowersOfTwo();
  }

  /** Sleeping exactly as long as told makes the next call due, and no shorter sleep does. */
  lemma WaitIsExact(c: Cadence, r: RetryState, now: int, slept: nat)
    requires r.next.Some?
    ensures r.Due(now + slept) <==> slept >= Wait(c, r, now)
  {
  }

  /** The calls of a worker that always sleeps exactly as long as told: the bound is reached. */
  function ExactCalls(c: Cadence, r: RetryState, now: int, n: nat): seq<int>
    requires r.Due(now)
    decreases n
  {
    if n == 0 then []
    else
      var r' := Failed(c, r, now);
      [now] + ExactCalls(c, r', now + Wait(c, r', now), n - 1)
  }

  lemma {:induction false} ExactCallsReachTheBound(c: Cadence, r: RetryState, now: int, n: nat, k: nat)
    requires r.Due(now) && k < n
    ensures var times := ExactCalls(c, r, now, n);
            Attempts(c, r, times) == times && |times| == n && times[k] == now + HoldOff(c, r.failures, k)
    decreases n
  {
    var r' := Failed(c, r, now);
    var later := now + Wait(c, r', now);
    var times := ExactCalls(c, r, now, n);
    assert times[1..] == ExactCalls(c, r', later, n - 1);
    if n > 1 {
      ExactCallsReachTheBound(c, r', later, n - 1, if k > 0 then k - 1 else 0);
    }
  }
}

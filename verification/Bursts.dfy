/** What the worker loop does at the latest: bursts that run all their ticks, ticks that are never overdue,
    hooks that are installed, and panics that are counted in a row. */
module Bursts {
  import opened Model
  import opened Arithmetic
  import opened Control
  import opened Worker
  import opened WorkerRuns

  // ---------------------------------------------------------------- bursts take place

  /** A steady iteration in which nothing happens and a tick, if there is one, completes. */
  predicate Quiet(cfg: Config, w: W, e: Env) { Steady(cfg, w, e) && Calm(cfg, w, e) && e.completes }

  ghost predicate QuietRun(cfg: Config, w: W, script: seq<Env>)
    decreases script
  {
    script != [] ==> Quiet(cfg, w, script[0]) && QuietRun(cfg, Step(cfg, w, script[0]), script[1..])
  }

  /** This many ticks are left of the burst, and the next one is not overdue. */
  predicate Bursting(cfg: Config, w: W, left: nat) { w.pace.burstLeft == left && 0 <= w.Since() <= BurstInterval(cfg) }

  /** The tick started as soon as the burst interval since the last one was over, but for its own scan. */
  predicate InBurst(cfg: Config, t: TickRecord) { t.sinceLast <= BurstInterval(cfg) + t.scanTime }

  lemma QuietDecided(cfg: Config, w: W, e: Env)
    requires Quiet(cfg, w, e)
    ensures var d := Decided(cfg, w, e);
            && d.pace == w.pace && d.procs.pids != {} && d.now == w.now + d.record.scanTime && d.record.scanTime >= 0
            && d.record.ticks == w.record.ticks
  {
    DecidedIs(cfg, w, e);
    LookedIs(cfg, Toggled(w, e), e);
  }

  lemma BurstStep(cfg: Config, w: W, e: Env, left: nat)
    requires Quiet(cfg, w, e) && Bursting(cfg, w, left) && left > 0
    ensures var d, w' := Decided(cfg, w, e), Step(cfg, w, e);
            if Holds(cfg, d) then Bursting(cfg, w', left) && w'.record.ticks == w.record.ticks
            else Bursting(cfg, w', left - 1) && w'.record.ticks == w.record.ticks + [RecordOf(cfg, d, e)] && InBurst(cfg, RecordOf(cfg, d, e))
  {
    QuietDecided(cfg, w, e);
    AfterDecision(cfg, Decided(cfg, w, e), e);
  }

  /** Where a decision leads while a burst is on. */
  lemma AfterDecision(cfg: Config, d: W, e: Env)
    requires d.pace.burstLeft > 0 && e.completes && d.Since() >= 0
    ensures Holds(cfg, d) ==>
              var w' := Slept(d, e, HoldTime(cfg, d)); Bursting(cfg, w', d.pace.burstLeft) && w'.record == d.record
    ensures !Holds(cfg, d) ==>
              var w' := Ticked(cfg, d, e);
              Bursting(cfg, w', d.pace.burstLeft - 1) && w'.record.ticks == d.record.ticks + [RecordOf(cfg, d, e)]
  {
  }

  /** The next ticks, as many as are left of the burst. */
  predicate BurstTicks(cfg: Config, ticks: seq<TickRecord>, n: nat, left: nat) {
    forall i | n <= i < |ticks| && i < n + left :: InBurst(cfg, ticks[i])
  }

  lemma {:induction false} BurstGoesOn(cfg: Config, w: W, script: seq<Env>, left: nat)
    requires QuietRun(cfg, w, script) && Bursting(cfg, w, left)
    ensures var w', n := Run(cfg, w, script), |w.record.ticks|;
            && n <= |w'.record.ticks| && w'.record.ticks[..n] == w.record.ticks
            && BurstTicks(cfg, w'.record.ticks, n, left)
            && (|w'.record.ticks| - n < left ==> Bursting(cfg, w', left - (|w'.record.ticks| - n)))
    decreases script
  {
    if script != [] {
      var w1, n := Step(cfg, w, script[0]), |w.record.ticks|;
      if left > 0 {
        BurstStep(cfg, w, script[0], left);
        BurstGoesOn(cfg, w1, script[1..], if |w1.record.ticks| == n then left else left - 1);
        if |w1.record.ticks| > n {
          var ticks := Run(cfg, w, script).record.ticks;
          assert ticks[n] == ticks[..n + 1][n] == w1.record.ticks[n];
          assert ticks[..n] == ticks[..n + 1][..n];
        }
      } else {
        TicksStay(cfg, w, script);
      }
    }
  }

  lemma StepTicksStay(cfg: Config, w: W, e: Env)
    ensures var w', n := Step(cfg, w, e), |w.record.ticks|; n <= |w'.record.ticks| && w'.record.ticks[..n] == w.record.ticks
  {
    DecidedTicks(cfg, w, e);
  }

  lemma {:induction false} TicksStay(cfg: Config, w: W, script: seq<Env>)
    ensures var w', n := Run(cfg, w, script), |w.record.ticks|; n <= |w'.record.ticks| && w'.record.ticks[..n] == w.record.ticks
    decreases script
  {
    if script != [] && !script[0].stopping {
      var w1, n := Step(cfg, w, script[0]), |w.record.ticks|;
      StepTicksStay(cfg, w, script[0]);
      TicksStay(cfg, w1, script[1..]);
      var ticks := Run(cfg, w, script).record.ticks;
      assert ticks[..n] == ticks[..|w1.record.ticks|][..n];
    }
  }

  /** A relevant follow-up event is drained, or the processes have changed. */
  predicate StartsBurst(cfg: Config, w: W, e: Env) {
    var pids := Decided(cfg, w, e).procs.pids;
    (exists i :: 0 <= i < |e.events| && e.events[i].pid in pids && e.events[i].followUp) || pids != w.procs.lastPids
  }

  lemma BurstIsStarted(cfg: Config, w: W, e: Env)
    requires e.enabled && StartsBurst(cfg, w, e)
    ensures Decided(cfg, w, e).pace.burstLeft == BurstIterations(cfg)
  {
    var t := Toggled(w, e);
    LookedIs(cfg, t, e);
    NoticedIs(cfg, Looked(cfg, t, e));
    DrainedIs(cfg, Hooked(Scanned(cfg, t, e), e), e);
    assert t.procs.lastPids == w.procs.lastPids;
  }

  /** An event of a watched process makes a tick pending, wherever it stands among the drained ones; events of
      others change nothing. */
  lemma EventsAreNoticed(cfg: Config, w: W, e: Env)
    ensures var d := Decided(cfg, w, e);
            if exists i :: 0 <= i < |e.events| && e.events[i].pid in d.procs.pids
            then d.pace.pending && d.pace.lastEventAt == Some(d.now) && d.pace.quietSince == d.now
            else d.pace.pending == w.pace.pending && d.pace.lastEventAt == w.pace.lastEventAt
  {
    var t := Toggled(w, e);
    LookedIs(cfg, t, e);
    NoticedIs(cfg, Looked(cfg, t, e));
    DrainedIs(cfg, Hooked(Scanned(cfg, t, e), e), e);
  }

  /** Whatever happened before: after an iteration that starts a burst, clamp(iterations, 1, 10) ticks take
      place in any quiet continuation, counting one of that iteration itself; each, but for such a first one,
      starts as soon as the burst interval since the last is over, and as long as they are not complete the
      next one is not overdue. */
  lemma BurstsTakePlace(cfg: Config, now: int, was: Switches, before: seq<Env>, e: Env, script: seq<Env>)
    requires var w := Run(cfg, Started(now, was), before);
             && !e.stopping && e.enabled && e.completes && StartsBurst(cfg, w, e) && Decided(cfg, w, e).procs.pids != {}
             && QuietRun(cfg, Step(cfg, w, e), script)
    ensures var w := Run(cfg, Started(now, was), before);
            var w1 := Step(cfg, w, e);
            var w', n, first := Run(cfg, w1, script), |w.record.ticks|, |w1.record.ticks|;
            && n <= first <= n + 1 && first <= |w'.record.ticks|
            && (|w'.record.ticks| - n < BurstIterations(cfg) ==> Bursting(cfg, w', BurstIterations(cfg) - (|w'.record.ticks| - n)))
            && BurstTicks(cfg, w'.record.ticks, first, n + BurstIterations(cfg) - first)
  {
    var w := Run(cfg, Started(now, was), before);
    EveryStateIsClocked(cfg, Started(now, was), before);
    DecidedClock(cfg, w, e);
    BurstIsStarted(cfg, w, e);
    var d, w1 := Decided(cfg, w, e), Step(cfg, w, e);
    AfterDecision(cfg, d, e);
    BurstGoesOn(cfg, w1, script, BurstIterations(cfg) - (|w1.record.ticks| - |w.record.ticks|));
  }

  // ---------------------------------------------------------------- no tick is overdue

  /** How long the worker may wait for its next tick. */
  function DueAfter(cfg: Config, d: W): int { if d.pace.pending || d.pace.burstLeft > 0 then BurstInterval(cfg) else Recon(cfg, d) }

  /** A sleep before a tick ends when the tick is due at the latest and, without a hook, no later than its
      next installation is due; if it is not cut short it ends exactly at the first of the two. */
  lemma SleepsUntilDue(cfg: Config, d: W, e: Env)
    requires Holds(cfg, d)
    ensures var w' := Slept(d, e, HoldTime(cfg, d));
            && d.Since() < DueAfter(cfg, d) && w'.Since() <= DueAfter(cfg, d)
            && HoldTime(cfg, d) >= 1
            && (d.hooks.installed.None? && d.hooks.retry.next.Some? ==> w'.now <= Max(d.hooks.retry.next.value, d.now + 1))
            && (e.slept >= HoldTime(cfg, d) ==>
                  || w'.Since() == DueAfter(cfg, d)
                  || (d.hooks.installed.None? && (w'.now == d.now + 1 || d.hooks.retry.next.None? || w'.now == d.hooks.retry.next.value)))
  {
  }

  function LongestWait(cfg: Config): int { Max(Max(BurstInterval(cfg), LongestRecon(cfg)), PANIC_BACKOFF) }

  predicate NotOverdue(cfg: Config, w: W, entry: int) { w.now <= Max(w.pace.lastFull, entry) + LongestWait(cfg) }

  predicate StartsInTime(cfg: Config, w: W, e: Env, entry: int) {
    var d := Decided(cfg, w, e);
    d.now <= Max(w.pace.lastFull, entry) + LongestWait(cfg) + d.record.scanTime
  }

  lemma SteadyStepInTime(cfg: Config, w: W, e: Env, entry: int)
    requires ClockOk(w) && entry <= w.now && NotOverdue(cfg, w, entry) && Steady(cfg, w, e)
    ensures StartsInTime(cfg, w, e, entry)
    ensures var w' := Step(cfg, w, e); ClockOk(w') && entry <= w'.now && NotOverdue(cfg, w', entry)
  {
    StepKeepsClock(cfg, w, e);
    DecidedClock(cfg, w, e);
    var d := Decided(cfg, w, e);
    ReconIsBounded(cfg, d);
    if Holds(cfg, d) {
      SleepsUntilDue(cfg, d, e);
    }
  }

  ghost predicate InTime(cfg: Config, w: W, script: seq<Env>, entry: int)
    decreases script
  {
    script != [] ==> StartsInTime(cfg, w, script[0], entry) && InTime(cfg, Step(cfg, w, script[0]), script[1..], entry)
  }

  lemma {:induction false} SteadyRunInTime(cfg: Config, w: W, script: seq<Env>, entry: int)
    requires ClockOk(w) && entry <= w.now && NotOverdue(cfg, w, entry) && SteadyRun(cfg, w, script)
    ensures InTime(cfg, w, script, entry) && NotOverdue(cfg, Run(cfg, w, script), entry)
    decreases script
  {
    if script != [] {
      SteadyStepInTime(cfg, w, script[0], entry);
      SteadyRunInTime(cfg, Step(cfg, w, script[0]), script[1..], entry);
    }
  }

  /** Whatever happened before, once the worker is on and processes are present: no more than the longest
      interval passes without a tick, counted from the last one or from the entry, but for the scan of the
      iteration that ticks. */
  lemma NoTickIsOverdue(cfg: Config, now: int, was: Switches, before: seq<Env>, script: seq<Env>)
    requires SteadyRun(cfg, Run(cfg, Started(now, was), before), script)
    ensures var w := Run(cfg, Started(now, was), before);
            InTime(cfg, w, script, w.now) && NotOverdue(cfg, Run(cfg, w, script), w.now)
  {
    EveryStateIsClocked(cfg, Started(now, was), before);
    var w := Run(cfg, Started(now, was), before);
    SteadyRunInTime(cfg, w, script, w.now);
  }

  /** A flipped switch makes the last pass ten seconds old: the iteration ticks at once exactly if an event
      is pending, a burst is on, or the reconcile interval is over by then. */
  lemma FlippedSwitchTicks(cfg: Config, w: W, e: Env)
    requires e.enabled && Toggles(w, e) && Decided(cfg, w, e).procs.pids != {}
    ensures var d := Decided(cfg, w, e);
            !Holds(cfg, d) <==> d.pace.pending || d.pace.burstLeft > 0 || Recon(cfg, d) <= 10000 + d.record.scanTime
    ensures !w.was.enabled ==> Decided(cfg, w, e).procs.lastScan == Some(Decided(cfg, w, e).now)
  {
    var t := Toggled(w, e);
    LookedIs(cfg, t, e);
    NoticedIs(cfg, Looked(cfg, t, e));
    DrainedIs(cfg, Hooked(Scanned(cfg, t, e), e), e);
  }

  // ---------------------------------------------------------------- pace

  /** The back-off while it doubles: `n` counts the tens of seconds. */
  lemma BackoffAt(cfg: Config, q: int, n: nat)
    requires 10000 * n <= q < 10000 * (n + 1) && 1 <= n <= 16 && cfg.idleBackoffMaxMs > Max(cfg.idlePollIntervalMs, 200)
    ensures ReconcileInterval(cfg, false, q, true) == Min(Max(cfg.idlePollIntervalMs, 200) * Pow2(n), cfg.idleBackoffMaxMs)
  {
    assert (q - 10000) / 10000 + 1 == n;
  }

  lemma OneMoreDoubling(idle: int, n: nat)
    ensures idle * Pow2(n + 1) == 2 * (idle * Pow2(n))
  {
  }

  lemma CappedDoubling(x: int, most: int)
    requires x >= 0 && most >= 0
    ensures Min(2 * x, most) == Min(2 * Min(x, most), most)
  {
  }

  lemma ReconcileGrows(cfg: Config, q: int)
    requires 10000 <= q < 160000 && cfg.idleBackoffMaxMs > Max(cfg.idlePollIntervalMs, 200)
    ensures ReconcileInterval(cfg, false, q + 10000, true) == Min(2 * ReconcileInterval(cfg, false, q, true), cfg.idleBackoffMaxMs)
  {
    var idle, n := Max(cfg.idlePollIntervalMs, 200), q / 10000;
    BackoffAt(cfg, q, n);
    BackoffAt(cfg, q + 10000, n + 1);
    OneMoreDoubling(idle, n);
    CappedDoubling(idle * Pow2(n), cfg.idleBackoffMaxMs);
  }

  lemma ReconcileStarts(cfg: Config, q: int)
    requires 10000 <= q < 20000 && cfg.idleBackoffMaxMs > Max(cfg.idlePollIntervalMs, 200)
    ensures ReconcileInterval(cfg, false, q, true) == Min(2 * Max(cfg.idlePollIntervalMs, 200), cfg.idleBackoffMaxMs)
  {
    BackoffAt(cfg, q, 1);
    assert Pow2(1) == 2 * Pow2(0) == 2;
  }

  /** With the hook in place the quiet interval is the idle one for ten seconds and doubles every ten seconds
      from then on, up to its maximum. */
  lemma ReconcileDoubles(cfg: Config, q: int)
    ensures var at := (q: int) => ReconcileInterval(cfg, false, q, true);
            var idle := Max(cfg.idlePollIntervalMs, 200);
            && (q < 10000 || cfg.idleBackoffMaxMs <= idle ==> at(q) == idle)
            && (cfg.idleBackoffMaxMs > idle && 10000 <= q < 20000 ==> at(q) == Min(2 * idle, cfg.idleBackoffMaxMs))
            && (cfg.idleBackoffMaxMs > idle && 10000 <= q < 160000 ==> at(q + 10000) == Min(2 * at(q), cfg.idleBackoffMaxMs))
            && (160000 <= q ==> at(q) == at(160000))
  {
    if cfg.idleBackoffMaxMs > Max(cfg.idlePollIntervalMs, 200) {
      if 10000 <= q < 20000 {
        ReconcileStarts(cfg, q);
      }
      if 10000 <= q < 160000 {
        ReconcileGrows(cfg, q);
      }
    }
  }

  /** A burst has the configured number of ticks at the configured distance, within one to ten ticks and ten
      milliseconds to a second. */
  lemma BurstPace(cfg: Config)
    ensures 1 <= BurstIterations(cfg) <= 10 && 10 <= BurstInterval(cfg) <= 1000
    ensures 1 <= cfg.burstScanIterations <= 10 ==> BurstIterations(cfg) == cfg.burstScanIterations
    ensures cfg.burstScanIterations > 10 ==> BurstIterations(cfg) == 10
    ensures 10 <= cfg.burstScanIntervalMs <= 1000 ==> BurstInterval(cfg) == cfg.burstScanIntervalMs
    ensures cfg.burstScanIntervalMs > 1000 ==> BurstInterval(cfg) == 1000
    ensures cfg.burstScanIntervalMs < 10 ==> BurstInterval(cfg) == 10
  {
  }

  /** Within two seconds of a relevant event the worker polls, otherwise it reconciles as quiet allows. */
  lemma ReconMeans(cfg: Config, w: W)
    ensures var active := w.pace.lastEventAt.Some? && w.now < w.pace.lastEventAt.value + 2000;
            && (active ==> Recon(cfg, w) == Min(Max(cfg.pollIntervalMs, 50), Max(cfg.idlePollIntervalMs, 200)))
            && (!active && w.hooks.installed.None? ==> Recon(cfg, w) == Max(cfg.idlePollIntervalMs, 200))
            && (!active && w.hooks.installed.Some? ==> Recon(cfg, w) == ReconcileInterval(cfg, false, w.now - w.pace.quietSince, true))
  {
  }

  /** Processes are looked for at the configured pace, never more than five times a second; rarely while their
      end is watched; and more rarely the longer they are absent, unless latency matters. */
  lemma ScanPace(cfg: Config, alive: bool, absent: int)
    ensures var base, interval := Max(cfg.pidScanIntervalMs, 200), PidScanInterval(cfg, alive, absent);
            && interval >= 200
            && (alive && !cfg.lowLatencyMode ==> interval == 30000)
            && (alive && cfg.lowLatencyMode ==> interval == Max(base, 2000))
            && (!alive && (cfg.lowLatencyMode || absent < 5000) ==> interval == base)
            && (!alive && !cfg.lowLatencyMode && 5000 <= absent < 30000 ==> interval == Max(base, 1000))
            && (!alive && !cfg.lowLatencyMode && 30000 <= absent ==> interval == Max(base, 2000))
  {
  }

  /** Without processes the worker sleeps until the next look for them is due, but at least ten milliseconds
      and at most a second, and forgets the last event. */
  lemma AbsentSleepsBriefly(w: W, e: Env, scanInterval: int)
    ensures var w' := Absent(w, e, scanInterval);
            && w.now <= w'.now <= w.now + 1000
            && (w.procs.lastScan.Some? ==> w'.now <= Max(w.procs.lastScan.value + scanInterval, w.now + 10))
            && (e.slept >= 1000 ==> w'.now == Max(w.now + 10, Min(w.now + 1000, if w.procs.lastScan.Some? then w.procs.lastScan.value + scanInterval else w.now)))
            && w'.pace == w.pace.(lastEventAt := None) && w'.procs == w.procs && w'.hooks == w.hooks && w'.record == w.record
            && w'.off == OffStep(w.off, e.apply, e.held, e.drainFailures, w.now)
  {
  }

  /** A flipped switch or a tray reset makes the next drain due at once, and starts its back-off afresh; nothing
      else moves it before its time. What was known of the processes is looked up again only when switched on. */
  lemma ResetDrainsAtOnce(w: W, e: Env)
    ensures var t := Toggled(w, e);
            && (Toggles(w, e) || e.reset ==> t.off.failures == 0 && (e.apply && e.held ==> Drains(t.off, e.apply, e.held, t.now)))
            && (!Toggles(w, e) && !e.reset ==> t.off == w.off)
            && t.was == Switches(e.enabled, e.aggressive) && t.now == w.now && t.hooks == w.hooks
            && (if Toggles(w, e) then w.now - t.pace.lastFull == 10000 else t.pace == w.pace)
            && (if e.enabled && !w.was.enabled then t.procs.lastScan.None? && t.procs.pids == w.procs.pids else t.procs == w.procs)
  {
  }

  /** Switched off there is no hook; the drain machine is asked once, and the worker sleeps until it is due. */
  lemma OffSleepsUntilDue(w: W, e: Env)
    ensures var w' := Off(w, e);
            && w'.hooks == NO_HOOK && w'.off == OffStep(w.off, e.apply, e.held, e.drainFailures, w.now)
            && w.now <= w'.now && (w'.off.next.Some? ==> w'.now <= Max(w'.off.next.value, w.now))
            && (w'.off.next.Some? && e.slept >= w'.off.next.value - w.now ==> w'.off.Due(w'.now))
            && (w'.off.next.None? ==> w'.now <= w.now + 1000)
            && w'.pace == w.pace && w'.procs == w.procs && w'.record == w.record
  {
  }

  /** After a tick the worker sleeps: five seconds after the third panic in a row or a later one, the burst
      interval while a burst is on, and otherwise not at all. */
  lemma TickThenSleeps(cfg: Config, d: W, e: Env)
    ensures var t := RecordOf(cfg, d, e);
            var most := if !e.completes && d.pace.panics >= 2 then 5000 else if d.pace.burstLeft > 0 then BurstInterval(cfg) else 0;
            && t.end == d.now + e.tickTime && t.end <= Ticked(cfg, d, e).now <= t.end + most
            && (e.slept >= most ==> Ticked(cfg, d, e).now == t.end + most)
  {
  }

  /** Ticks are for processes only: without any, nothing is looked at, and the drain machine is asked instead. */
  lemma TicksNeedProcesses(cfg: Config, w: W, e: Env)
    requires e.enabled && Decided(cfg, w, e).procs.pids == {}
    ensures var d, w' := Decided(cfg, w, e), Step(cfg, w, e);
            && w'.record.ticks == w.record.ticks
            && w'.off == OffStep(d.off, e.apply, e.held, e.drainFailures, d.now)
  {
    DecidedPanics(cfg, w, e);
  }

  // ---------------------------------------------------------------- the hook is installed

  /** A missing hook is tried for exactly when it is wanted and due, at once for new processes; it is there
      afterwards exactly if it was or the attempt succeeds; and only a failed attempt is held off. */
  lemma HookIsTried(h: HookState, pids: set<Pid>, installs: bool, now: int)
    requires HookOk(h)
    ensures var h' := HookFor(h, pids, installs, now);
            var same := pids == h.wanted;
            var attempt := pids != {} && (if same then h.installed.None? && h.retry.Due(now) else true);
            && (h'.installed.Some? <==> (same && h.installed.Some?) || (attempt && installs))
            && h'.retry == (if attempt && installs then READY
                            else if attempt then Failed(HookCadence, if same then h.retry else READY, now)
                            else if same then h.retry else READY)
  {
  }

  // ---------------------------------------------------------------- panics in a row

  /** The number of panicking ticks at the end. */
  function PanicsInARow(ticks: seq<TickRecord>): nat {
    if ticks == [] || ticks[|ticks| - 1].completed then 0 else PanicsInARow(ticks[..|ticks| - 1]) + 1
  }

  /** A tick backed off exactly if it was at least the third panic in a row. */
  ghost predicate PausesFit(ticks: seq<TickRecord>) {
    forall i | 0 <= i < |ticks| :: ticks[i].backedOff == (PanicsInARow(ticks[..i + 1]) >= 3)
  }

  /** And the worker's own count of panics is right. */
  ghost predicate PanicsCounted(w: W) { w.pace.panics == PanicsInARow(w.record.ticks) && PausesFit(w.record.ticks) }

  lemma OneTickMore(ticks: seq<TickRecord>, t: TickRecord)
    ensures PanicsInARow(ticks + [t]) == if t.completed then 0 else PanicsInARow(ticks) + 1
    ensures PausesFit(ticks) && t.backedOff == (PanicsInARow(ticks + [t]) >= 3) ==> PausesFit(ticks + [t])
  {
    var all := ticks + [t];
    assert all[..|all| - 1] == ticks && all[..|all|] == all;
    forall i | 0 <= i < |ticks| && PausesFit(ticks) ensures ticks[i].backedOff == (PanicsInARow(all[..i + 1]) >= 3) {
      assert all[..i + 1] == ticks[..i + 1];
    }
  }

  lemma DecidedPanics(cfg: Config, w: W, e: Env)
    ensures var d := Decided(cfg, w, e); d.pace.panics == w.pace.panics && d.record.ticks == w.record.ticks
  {
    var t := Toggled(w, e);
    assert t.record.ticks == w.record.ticks && t.pace.panics == w.pace.panics;
    LookedIs(cfg, t, e);
    NoticedIs(cfg, Looked(cfg, t, e));
    DrainedIs(cfg, Hooked(Scanned(cfg, t, e), e), e);
  }

  lemma StepCountsPanics(cfg: Config, w: W, e: Env)
    requires PanicsCounted(w)
    ensures PanicsCounted(Step(cfg, w, e))
  {
    DecidedPanics(cfg, w, e);
    var d := Decided(cfg, w, e);
    if e.enabled && d.procs.pids != {} && !Holds(cfg, d) {
      var t := RecordOf(cfg, d, e);
      OneTickMore(w.record.ticks, t);
      assert Step(cfg, w, e).record.ticks == w.record.ticks + [t];
    }
  }

  /** In every run a tick is followed by the long pause exactly if it was at least the third in a row to panic. */
  lemma {:induction false} PausesFollowPanics(cfg: Config, w: W, script: seq<Env>)
    requires PanicsCounted(w)
    ensures PanicsCounted(Run(cfg, w, script))
    decreases script
  {
    if script != [] && !script[0].stopping {
      StepCountsPanics(cfg, w, script[0]);
      PausesFollowPanics(cfg, Step(cfg, w, script[0]), script[1..]);
    }
  }
}

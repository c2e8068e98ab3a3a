/** What the worker loop guarantees over whole runs: answers in time, ticks that keep their distance,
    bursts that end, and a hook that always belongs to the current processes. */
module WorkerRuns {
  import opened Model
  import opened Arithmetic
  import opened Control
  import opened Worker

  // ---------------------------------------------------------------- the hook

  /** An installed hook serves exactly the wanted processes; degraded means wanted but missing. */
  predicate HookOk(h: HookState) {
    && (h.installed.Some? ==> h.installed.value == h.wanted && h.wanted != {})
    && (h.degraded <==> h.wanted != {} && h.installed.None?)
  }

  lemma HookForKeeps(h: HookState, pids: set<Pid>, installs: bool, now: int)
    requires HookOk(h)
    ensures HookOk(HookFor(h, pids, installs, now)) && HookFor(h, pids, installs, now).wanted == pids
  {
  }

  lemma DecidedHook(cfg: Config, w: W, e: Env)
    requires HookOk(w.hooks)
    ensures var d := Decided(cfg, w, e); HookOk(d.hooks) && d.hooks.wanted == d.procs.pids
  {
    var s := Scanned(cfg, Toggled(w, e), e);
    assert s.hooks == w.hooks;
    HookForKeeps(s.hooks, s.procs.pids, e.installs, s.now);
  }

  lemma StepKeepsHook(cfg: Config, w: W, e: Env)
    requires HookOk(w.hooks)
    ensures var w' := Step(cfg, w, e);
            HookOk(w'.hooks) && if e.enabled then w'.hooks.wanted == w'.procs.pids else w'.hooks == NO_HOOK
  {
    if e.enabled {
      var d := Decided(cfg, w, e);
      DecidedHook(cfg, w, e);
      assert Step(cfg, w, e).hooks == d.hooks && Step(cfg, w, e).procs == d.procs;
    }
  }

  lemma {:induction false} RunKeepsHook(cfg: Config, w: W, script: seq<Env>)
    requires HookOk(w.hooks)
    ensures HookOk(Run(cfg, w, script).hooks)
    decreases script
  {
    if script != [] && !script[0].stopping {
      StepKeepsHook(cfg, w, script[0]);
      RunKeepsHook(cfg, Step(cfg, w, script[0]), script[1..]);
    }
  }

  /** After any run, and any iteration more: switched on, an installed hook was installed for exactly the
      current processes and the status says degraded exactly when there are processes and no hook; switched
      off there is neither hook nor complaint. */
  lemma HookServesCurrentProcesses(cfg: Config, now: int, was: Switches, script: seq<Env>, e: Env)
    ensures var w := Step(cfg, Run(cfg, Started(now, was), script), e);
            if e.enabled
            then (w.hooks.installed.Some? ==> w.hooks.installed.value == w.procs.pids)
                 && (w.hooks.degraded <==> w.procs.pids != {} && w.hooks.installed.None?)
            else w.hooks.installed.None? && !w.hooks.degraded
  {
    RunKeepsHook(cfg, Started(now, was), script);
    StepKeepsHook(cfg, Run(cfg, Started(now, was), script), e);
  }

  // ---------------------------------------------------------------- an iteration up to its decision

  predicate ScanDue(cfg: Config, w: W, e: Env) {
    w.procs.lastScan.None? || w.now - w.procs.lastScan.value >= ScanIntervalOf(cfg, w, e)
  }

  lemma LookedIs(cfg: Config, w: W, e: Env)
    ensures var l := Looked(cfg, w, e);
            && l.now == w.now + (if ScanDue(cfg, w, e) then e.scanTime else 0)
            && l.procs.pids == (if ScanDue(cfg, w, e) && e.scan.Some? then e.scan.value else w.procs.pids)
            && l.procs.lastScan == (if ScanDue(cfg, w, e) then Some(l.now) else w.procs.lastScan)
            && l.procs.lastPids == w.procs.lastPids && l.procs.absentSince == w.procs.absentSince
            && l.hooks == w.hooks && l.pace == w.pace && l.was == w.was
            && l.record == w.record.(scanTime := if ScanDue(cfg, w, e) then e.scanTime else 0)
  {
  }

  lemma NoticedIs(cfg: Config, w: W)
    ensures var n := Noticed(cfg, w);
            && n.now == w.now && n.hooks == w.hooks && n.was == w.was && n.record == w.record
            && n.procs.pids == n.procs.lastPids == w.procs.pids && n.procs.lastScan == w.procs.lastScan
            && n.procs.absentSince == (if w.procs.pids != {} then w.now else w.procs.absentSince)
            && n.pace == if w.procs.pids != w.procs.lastPids then w.pace.(burstLeft := BurstIterations(cfg), quietSince := w.now) else w.pace
  {
  }

  lemma DrainedIs(cfg: Config, w: W, e: Env)
    ensures var d := Drained(cfg, w, e);
            && d.now == w.now && d.hooks == w.hooks && d.was == w.was && d.procs == w.procs
            && d.record == w.record.(pendingAt := d.record.pendingAt)
            && (!Relevant(w.procs.pids, e.events) ==> d == w)
            && (Relevant(w.procs.pids, e.events) ==>
                  && d.pace.pending && d.pace.lastFull == w.pace.lastFull && d.pace.panics == w.pace.panics
                  && d.pace.lastEventAt == Some(w.now) && d.pace.quietSince == w.now
                  && d.pace.burstLeft == (if FollowUp(w.procs.pids, e.events) then BurstIterations(cfg) else w.pace.burstLeft)
                  && d.record.pendingAt == if w.pace.pending then w.record.pendingAt else w.now)
  {
  }

  /** What an iteration without a toggle finds before it decides whether to tick. */
  lemma DecidedIs(cfg: Config, w: W, e: Env)
    requires e.enabled && !Toggles(w, e)
    ensures var d := Decided(cfg, w, e);
            && d.record.scanTime == (if ScanDue(cfg, w, e) then e.scanTime else 0)
            && d.now == w.now + d.record.scanTime && d.was == w.was
            && d.procs.pids == d.procs.lastPids == (if ScanDue(cfg, w, e) && e.scan.Some? then e.scan.value else w.procs.pids)
            && d.procs.lastScan == (if ScanDue(cfg, w, e) then Some(d.now) else w.procs.lastScan)
            && d.hooks == HookFor(w.hooks, d.procs.pids, e.installs, d.now)
            && d.record.ticks == w.record.ticks && d.pace.lastFull == w.pace.lastFull
            && (d.pace.pending <==> w.pace.pending || Relevant(d.procs.pids, e.events))
            && (d.pace.pending ==> d.record.pendingAt == if w.pace.pending then w.record.pendingAt else d.now)
            && (Relevant(d.procs.pids, e.events) ==> d.pace.lastEventAt == Some(d.now) && d.pace.quietSince == d.now)
            && d.pace.panics == w.pace.panics
            && d.pace.burstLeft == (if FollowUp(d.procs.pids, e.events) || d.procs.pids != w.procs.lastPids then BurstIterations(cfg) else w.pace.burstLeft)
            && d.procs.absentSince == (if d.procs.pids != {} then d.now else w.procs.absentSince)
            && (!Relevant(d.procs.pids, e.events) ==>
                  d.pace == if d.procs.pids != w.procs.lastPids then w.pace.(burstLeft := BurstIterations(cfg), quietSince := d.now) else w.pace)
  {
    var t := Toggled(w, e);
    assert t.now == w.now && t.procs == w.procs && t.hooks == w.hooks && t.pace == w.pace && t.was == w.was && t.record == w.record;
    LookedIs(cfg, t, e);
    var l := Looked(cfg, t, e);
    NoticedIs(cfg, l);
    var n := Noticed(cfg, l);
    DrainedIs(cfg, Hooked(n, e), e);
  }

  // ---------------------------------------------------------------- bounded response

  /** Nothing is recorded for the future. */
  predicate ClockOk(w: W) { w.pace.lastFull <= w.now && (w.pace.pending ==> w.record.pendingAt <= w.now) }

  lemma StepKeepsClock(cfg: Config, w: W, e: Env)
    requires ClockOk(w)
    ensures ClockOk(Step(cfg, w, e))
  {
    if e.enabled {
      DecidedClock(cfg, w, e);
      PacedClock(cfg, Decided(cfg, w, e), e, ScanIntervalOf(cfg, Toggled(w, e), e));
    }
  }

  lemma SleptClock(w: W, e: Env, atMost: int)
    requires ClockOk(w)
    ensures ClockOk(Slept(w, e, atMost))
  {
  }

  lemma TickedClock(cfg: Config, w: W, e: Env)
    ensures ClockOk(Ticked(cfg, w, e))
  {
  }

  lemma PacedClock(cfg: Config, d: W, e: Env, scanInterval: int)
    requires ClockOk(d)
    ensures ClockOk(Paced(cfg, d, e, scanInterval))
  {
    if d.procs.pids != {} {
      if Holds(cfg, d) {
        SleptClock(d, e, HoldTime(cfg, d));
      } else {
        TickedClock(cfg, d, e);
      }
    }
  }

  lemma DecidedClock(cfg: Config, w: W, e: Env)
    requires ClockOk(w)
    ensures var d := Decided(cfg, w, e);
            && ClockOk(d) && d.record.ticks == w.record.ticks
            && d.record.scanTime >= 0 && d.now == w.now + d.record.scanTime
            && (!Toggles(w, e) ==> d.pace.lastFull == w.pace.lastFull)
            && (w.pace.pending ==> d.pace.pending && d.record.pendingAt == w.record.pendingAt)
            && (!w.pace.pending && d.pace.pending ==> d.record.pendingAt == d.now)
            && (d.pace.pending <==> w.pace.pending || Relevant(d.procs.pids, e.events))
  {
    var t := Toggled(w, e);
    assert ClockOk(t) && t.now == w.now && t.record == w.record && t.pace.pending == w.pace.pending;
    var l := Looked(cfg, t, e);
    assert l.pace == t.pace && l.record.ticks == w.record.ticks && l.record.pendingAt == w.record.pendingAt;
    assert l.record.scanTime >= 0 && l.now == w.now + l.record.scanTime;
    var n := Noticed(cfg, l);
    assert n.now == l.now && n.record == l.record && n.pace.lastFull == l.pace.lastFull && n.pace.pending == l.pace.pending;
  }

  /** The clock is in order in every reachable state. */
  lemma {:induction false} EveryStateIsClocked(cfg: Config, w: W, script: seq<Env>)
    requires ClockOk(w)
    ensures ClockOk(Run(cfg, w, script))
    decreases script
  {
    if script != [] && !script[0].stopping {
      StepKeepsClock(cfg, w, script[0]);
      EveryStateIsClocked(cfg, Step(cfg, w, script[0]), script[1..]);
    }
  }

  /** Switched on before and after, with processes present. */
  predicate Steady(cfg: Config, w: W, e: Env) {
    !e.stopping && e.enabled && !Toggles(w, e) && Decided(cfg, w, e).procs.pids != {}
  }

  /** Between iterations, a pending event has not waited longer than a burst interval since the steady
      stretch was entered. */
  predicate Responsive(cfg: Config, w: W, entry: int) {
    w.pace.pending ==>
      var from := Max(w.record.pendingAt, entry);
      w.pace.lastFull <= from <= w.now <= from + BurstInterval(cfg)
  }

  /** A tick that answers events starts within a burst interval of the first of them, or of the entry if the
      event is older, plus what its own iteration spent on a process scan. */
  predicate Answers(cfg: Config, t: TickRecord, entry: int) {
    t.pending ==> t.pendingAt <= t.start <= Max(t.pendingAt, entry) + BurstInterval(cfg) + t.scanTime
  }

  /** In a steady iteration an event, new or old, is either answered by a tick in time or remains pending
      since the same moment. */
  lemma SteadyStepResponds(cfg: Config, w: W, e: Env, entry: int)
    requires ClockOk(w) && entry <= w.now && Responsive(cfg, w, entry) && Steady(cfg, w, e)
    ensures var d, w' := Decided(cfg, w, e), Step(cfg, w, e);
            && ClockOk(w') && entry <= w'.now && Responsive(cfg, w', entry)
            && w'.record.ticks == w.record.ticks + (if Holds(cfg, d) then [] else [RecordOf(cfg, d, e)])
            && (w.pace.pending || Relevant(d.procs.pids, e.events) ==>
                  && d.record.pendingAt == (if w.pace.pending then w.record.pendingAt else d.now)
                  && if Holds(cfg, d) then w'.pace.pending && w'.record.pendingAt == d.record.pendingAt
                     else RecordOf(cfg, d, e).pending && RecordOf(cfg, d, e).pendingAt == d.record.pendingAt)
            && (!Holds(cfg, d) ==> Answers(cfg, RecordOf(cfg, d, e), entry))
  {
    StepKeepsClock(cfg, w, e);
    DecidedClock(cfg, w, e);
    var d := Decided(cfg, w, e);
    if Holds(cfg, d) && d.pace.pending {
      assert HoldTime(cfg, d) <= BurstInterval(cfg) - d.Since();
    }
  }

  ghost predicate SteadyRun(cfg: Config, w: W, script: seq<Env>)
    decreases script
  {
    script != [] ==> Steady(cfg, w, script[0]) && SteadyRun(cfg, Step(cfg, w, script[0]), script[1..])
  }

  lemma {:induction false} SteadyRunResponds(cfg: Config, w: W, script: seq<Env>, entry: int)
    requires ClockOk(w) && entry <= w.now && Responsive(cfg, w, entry) && SteadyRun(cfg, w, script)
    ensures var w' := Run(cfg, w, script);
            && ClockOk(w') && entry <= w'.now && Responsive(cfg, w', entry)
            && |w.record.ticks| <= |w'.record.ticks| && w'.record.ticks[..|w.record.ticks|] == w.record.ticks
            && (forall i | |w.record.ticks| <= i < |w'.record.ticks| :: Answers(cfg, w'.record.ticks[i], entry))
    decreases script
  {
    if script != [] {
      var w1 := Step(cfg, w, script[0]);
      SteadyStepResponds(cfg, w, script[0], entry);
      SteadyRunResponds(cfg, w1, script[1..], entry);
      var ticks := Run(cfg, w, script).record.ticks;
      assert ticks[..|w.record.ticks|] == ticks[..|w1.record.ticks|][..|w.record.ticks|];
      forall i | |w.record.ticks| <= i < |w1.record.ticks| ensures Answers(cfg, ticks[i], entry) {
        assert ticks[i] == ticks[..|w1.record.ticks|][i];
      }
    }
  }

  /** Whatever happened before, once the worker is on and processes are present: every tick that answers
      events starts in time, and no event is left waiting longer. */
  lemma EventsAreAnsweredInTime(cfg: Config, now: int, was: Switches, before: seq<Env>, script: seq<Env>)
    requires SteadyRun(cfg, Run(cfg, Started(now, was), before), script)
    ensures var w := Run(cfg, Started(now, was), before);
            var w' := Run(cfg, w, script);
            && |w.record.ticks| <= |w'.record.ticks|
            && (forall i | |w.record.ticks| <= i < |w'.record.ticks| :: Answers(cfg, w'.record.ticks[i], w.now))
            && (w'.pace.pending ==> w'.now <= Max(w'.record.pendingAt, w.now) + BurstInterval(cfg))
  {
    EveryStateIsClocked(cfg, Started(now, was), before);
    var w := Run(cfg, Started(now, was), before);
    SteadyRunResponds(cfg, w, script, w.now);
  }

  /** A pending event stays pending until a tick, so once more than a burst interval has passed there was one,
      and the first one answered it. */
  lemma {:induction false} EventIsNotForgotten(cfg: Config, w: W, script: seq<Env>, entry: int)
    requires ClockOk(w) && entry <= w.now && Responsive(cfg, w, entry) && SteadyRun(cfg, w, script) && w.pace.pending
    ensures var w', n := Run(cfg, w, script), |w.record.ticks|;
            if |w'.record.ticks| == n
            then w'.pace.pending && w'.record.pendingAt == w.record.pendingAt
                 && w'.now <= Max(w.record.pendingAt, entry) + BurstInterval(cfg)
            else |w'.record.ticks| > n && w'.record.ticks[n].pending && w'.record.ticks[n].pendingAt == w.record.pendingAt
                 && Answers(cfg, w'.record.ticks[n], entry)
    decreases script
  {
    if script != [] {
      var w1, n := Step(cfg, w, script[0]), |w.record.ticks|;
      SteadyStepResponds(cfg, w, script[0], entry);
      SteadyRunResponds(cfg, w1, script[1..], entry);
      if |w1.record.ticks| == n {
        EventIsNotForgotten(cfg, w1, script[1..], entry);
      } else {
        var ticks := Run(cfg, w, script).record.ticks;
        assert ticks[n] == ticks[..|w1.record.ticks|][n];
      }
    }
  }

  /** The answer is in time, the scan of its own iteration not excepted. */
  predicate AnswersWithinBurst(cfg: Config, t: TickRecord, entry: int) {
    t.pending ==> t.start <= Max(t.pendingAt, entry) + BurstInterval(cfg)
  }

  /** The event is new, or no scan is due, or the scan is over before the event has waited too long. */
  predicate ScanFits(cfg: Config, w: W, e: Env, entry: int) {
    || !w.pace.pending
    || !ScanDue(cfg, w, e)
    || e.scanTime <= Max(w.record.pendingAt, entry) + BurstInterval(cfg) - w.now
  }

  /** The iteration answers events. */
  predicate Answering(cfg: Config, w: W, e: Env) {
    Decided(cfg, w, e).pace.pending && !Holds(cfg, Decided(cfg, w, e))
  }

  /** An answering tick starts within the burst interval if and only if the scan fits. */
  lemma AnswerIsInTimeIfScanFits(cfg: Config, w: W, e: Env, entry: int)
    requires ClockOk(w) && entry <= w.now && Responsive(cfg, w, entry) && Steady(cfg, w, e) && Answering(cfg, w, e)
    ensures AnswersWithinBurst(cfg, RecordOf(cfg, Decided(cfg, w, e), e), entry) <==> ScanFits(cfg, w, e, entry)
  {
    DecidedIs(cfg, w, e);
  }

  /** Every scan before an answer fits. */
  ghost predicate ScansFit(cfg: Config, w: W, script: seq<Env>, entry: int)
    decreases script
  {
    script != [] ==>
      && (Answering(cfg, w, script[0]) ==> ScanFits(cfg, w, script[0], entry))
      && ScansFit(cfg, Step(cfg, w, script[0]), script[1..], entry)
  }

  ghost predicate AllWithinBurst(cfg: Config, ticks: seq<TickRecord>, n: nat, entry: int) {
    forall i | n <= i < |ticks| :: AnswersWithinBurst(cfg, ticks[i], entry)
  }

  lemma AllWithinBurstSplits(cfg: Config, some: seq<TickRecord>, all: seq<TickRecord>, n: nat, entry: int)
    requires n <= |some| <= |all| && all[..|some|] == some
    ensures AllWithinBurst(cfg, all, n, entry) <==> AllWithinBurst(cfg, some, n, entry) && AllWithinBurst(cfg, all, |some|, entry)
  {
    assert forall i | n <= i < |some| :: some[i] == all[i];
  }

  lemma SteadyStepExactly(cfg: Config, w: W, e: Env, entry: int)
    requires ClockOk(w) && entry <= w.now && Responsive(cfg, w, entry) && Steady(cfg, w, e)
    ensures AllWithinBurst(cfg, Step(cfg, w, e).record.ticks, |w.record.ticks|, entry) <==> (Answering(cfg, w, e) ==> ScanFits(cfg, w, e, entry))
  {
    SteadyStepResponds(cfg, w, e, entry);
    var d, n, ticks := Decided(cfg, w, e), |w.record.ticks|, Step(cfg, w, e).record.ticks;
    if !Holds(cfg, d) {
      assert ticks[n] == RecordOf(cfg, d, e);
    }
    if Answering(cfg, w, e) {
      AnswerIsInTimeIfScanFits(cfg, w, e, entry);
    }
  }

  lemma {:induction false} SteadyRunExactly(cfg: Config, w: W, script: seq<Env>, entry: int)
    requires ClockOk(w) && entry <= w.now && Responsive(cfg, w, entry) && SteadyRun(cfg, w, script)
    ensures AllWithinBurst(cfg, Run(cfg, w, script).record.ticks, |w.record.ticks|, entry) <==> ScansFit(cfg, w, script, entry)
    decreases script
  {
    if script != [] {
      var w1 := Step(cfg, w, script[0]);
      SteadyStepResponds(cfg, w, script[0], entry);
      SteadyStepExactly(cfg, w, script[0], entry);
      SteadyRunResponds(cfg, w1, script[1..], entry);
      SteadyRunExactly(cfg, w1, script[1..], entry);
      AllWithinBurstSplits(cfg, w1.record.ticks, Run(cfg, w, script).record.ticks, |w.record.ticks|, entry);
    }
  }

  /** Whatever happened before: all answers of a steady stretch start within the burst interval of their
      events (or of the entry) if and only if every scan made by an iteration that then answers fits. */
  lemma AnswersInTimeExactlyIfScansFit(cfg: Config, now: int, was: Switches, before: seq<Env>, script: seq<Env>)
    requires SteadyRun(cfg, Run(cfg, Started(now, was), before), script)
    ensures var w := Run(cfg, Started(now, was), before);
            AllWithinBurst(cfg, Run(cfg, w, script).record.ticks, |w.record.ticks|, w.now) <==> ScansFit(cfg, w, script, w.now)
  {
    EveryStateIsClocked(cfg, Started(now, was), before);
    var w := Run(cfg, Started(now, was), before);
    SteadyRunExactly(cfg, w, script, w.now);
  }

  // ---------------------------------------------------------------- a long scan delays the answer

  const SLOW := Config(1000, 1000, 1000, 200, false, 1, 1000)
  const ON := Switches(true, false)

  /** An iteration that finds the one process. */
  function Plain(alive: bool, events: seq<Event>, scanTime: nat, slept: nat): Env {
    Env(false, false, true, false, true, false, 0, alive, Some({7}), scanTime, true, events, 0, true, slept)
  }

  const FIRST := Plain(true, [], 0, 0)
  const EVENT := Plain(true, [Event(7, false)], 0, 1000)

  /** The one process is known, the last scan and the last pass were at time 0. */
  predicate Watching(w: W) {
    && w.procs.pids == w.procs.lastPids == {7} && w.procs.lastScan == Some(0) && w.procs.absentSince == 0
    && w.was == ON && w.pace.lastFull == 0 && w.hooks.installed.Some? && w.hooks.wanted == {7}
  }

  lemma AfterFirst(w: W)
    requires w == Started(0, ON)
    ensures var w' := Step(SLOW, w, FIRST); Watching(w') && w'.now == 0 && !w'.pace.pending
  {
    DecidedIs(SLOW, w, FIRST);
    TicksAtOnce(Decided(SLOW, w, FIRST));
  }

  lemma TicksAtOnce(d: W)
    requires d.now == 0 && d.procs.pids == {7} && d.pace == Pacing(1, false, -10000, None, 0, 0)
    ensures !Holds(SLOW, d)
    ensures var w' := Ticked(SLOW, d, FIRST); w'.now == 0 && w'.procs == d.procs && w'.was == d.was && w'.hooks == d.hooks && w'.pace.lastFull == 0 && !w'.pace.pending
  {
  }

  lemma AfterEvent(w: W)
    requires Watching(w) && w.now == 0 && !w.pace.pending
    ensures Steady(SLOW, w, EVENT)
    ensures var w' := Step(SLOW, w, EVENT);
            Watching(w') && w'.now == 1000 && w'.pace.pending && w'.record.pendingAt == 0 && w'.record.ticks == w.record.ticks
  {
    DecidedIs(SLOW, w, EVENT);
    assert EVENT.events[0].pid in {7};
    var d := Decided(SLOW, w, EVENT);
    assert Relevant(d.procs.pids, EVENT.events);
    HoldsOneSecond(w.hooks, d);
  }

  lemma HoldsOneSecond(h: HookState, d: W)
    requires d.now == 0 && d.pace.pending && d.pace.lastFull == 0 && d.procs.pids != {} && d.hooks == HookFor(h, d.procs.pids, true, 0)
    requires h.installed.Some? && h.wanted == d.procs.pids
    ensures Holds(SLOW, d) && HoldTime(SLOW, d) == 1000
  {
  }

  lemma AfterLongScan(w: W, delay: nat)
    requires Watching(w) && w.now == 1000 && w.pace.pending && w.record.pendingAt == 0
    ensures var e := Plain(false, [], delay, 0);
            && Steady(SLOW, w, e)
            && Step(SLOW, w, e).record.ticks == w.record.ticks + [RecordOf(SLOW, Decided(SLOW, w, e), e)]
            && var t := RecordOf(SLOW, Decided(SLOW, w, e), e);
               t.pending && t.pendingAt == 0 && t.start == 1000 + delay
  {
    DecidedIs(SLOW, w, Plain(false, [], delay, 0));
  }

  lemma TwoSteps(cfg: Config, w: W, a: Env, b: Env)
    requires !a.stopping && !b.stopping
    ensures Run(cfg, w, [a]) == Step(cfg, w, a)
    ensures Run(cfg, w, [a, b]) == Step(cfg, Step(cfg, w, a), b)
    ensures Steady(cfg, w, a) && Steady(cfg, Step(cfg, w, a), b) ==> SteadyRun(cfg, w, [a, b])
  {
    var w1 := Step(cfg, w, a);
    assert [a, b][1..] == [b] && Run(cfg, w1, [b]) == Step(cfg, w1, b);
    assert SteadyRun(cfg, w1, [b]) == Steady(cfg, w1, b);
  }

  /** A scan that does not fit: whatever the delay, one that starts when the event has become due makes
      the answering tick later by all of its duration. */
  lemma LongScanDelaysTheAnswer(delay: nat)
    ensures BurstInterval(SLOW) == 1000
    ensures var w := Run(SLOW, Started(0, ON), [FIRST]);
            var script := [EVENT, Plain(false, [], delay, 0)];
            && SteadyRun(SLOW, w, script)
            && var ticks := Run(SLOW, w, script).record.ticks;
               && |ticks| == |w.record.ticks| + 1
               && var t := ticks[|ticks| - 1];
                  t.pending && t.pendingAt >= w.now && t.start == t.pendingAt + 1000 + delay
  {
    var start, last := Started(0, ON), Plain(false, [], delay, 0);
    TwoSteps(SLOW, start, FIRST, EVENT);
    AfterFirst(start);
    var w := Step(SLOW, start, FIRST);
    AfterEvent(w);
    TwoSteps(SLOW, w, EVENT, last);
    AfterLongScan(Step(SLOW, w, EVENT), delay);
  }

  // ---------------------------------------------------------------- spacing

  /** No switch is flipped during the run. */
  ghost predicate Untoggled(cfg: Config, w: W, script: seq<Env>)
    decreases script
  {
    script != [] ==> !Toggles(w, script[0]) && Untoggled(cfg, Step(cfg, w, script[0]), script[1..])
  }

  /** The last full pass is the last tick, if one ran since there were `n`. */
  predicate LastFullIsTick(w: W, n: nat) {
    |w.record.ticks| > n ==> w.pace.lastFull == w.record.ticks[|w.record.ticks| - 1].end
  }

  function TickFloor(cfg: Config): int { Min(BurstInterval(cfg), Min(Max(cfg.pollIntervalMs, 50), Max(cfg.idlePollIntervalMs, 200))) }

  /** Two ticks in a row: the second starts at least the smaller interval after the first ended. */
  predicate Apart(cfg: Config, a: TickRecord, b: TickRecord) {
    b.start - a.end >= Min(BurstInterval(cfg), b.recon) >= TickFloor(cfg) && b.end >= b.start
  }

  predicate Spaced(cfg: Config, ticks: seq<TickRecord>, n: nat) {
    forall i | n < i < |ticks| :: Apart(cfg, ticks[i - 1], ticks[i])
  }

  lemma ReconFloor(cfg: Config, w: W)
    ensures Recon(cfg, w) >= Min(Max(cfg.pollIntervalMs, 50), Max(cfg.idlePollIntervalMs, 200))
  {
    var quiet := w.now - w.pace.quietSince;
    if quiet >= QUIET_BEFORE_BACKOFF {
      var d := Min((quiet - QUIET_BEFORE_BACKOFF) / 10000 + 1, 16);
      Pow2Grows(0, d);
      ScaledGrows(Max(cfg.idlePollIntervalMs, 200), 1, Pow2(d));
    }
  }

  lemma DecidedTicks(cfg: Config, w: W, e: Env)
    ensures var d := Decided(cfg, w, e);
            d.record.ticks == w.record.ticks && (!Toggles(w, e) ==> d.pace.lastFull == w.pace.lastFull)
            && d.pace.burstLeft <= Max(w.pace.burstLeft, BurstIterations(cfg))
  {
    var t := Toggled(w, e);
    assert t.record.ticks == w.record.ticks && t.pace.burstLeft == w.pace.burstLeft;
    var l := Looked(cfg, t, e);
    assert l.record.ticks == t.record.ticks && l.pace == t.pace;
    var n := Noticed(cfg, l);
    assert n.record == l.record && n.pace.lastFull == l.pace.lastFull;
  }

  lemma StepKeepsSpacing(cfg: Config, w: W, e: Env, n: nat)
    requires !Toggles(w, e) && n <= |w.record.ticks| && LastFullIsTick(w, n) && Spaced(cfg, w.record.ticks, n)
    ensures var w' := Step(cfg, w, e);
            |w.record.ticks| <= |w'.record.ticks| && LastFullIsTick(w', n) && Spaced(cfg, w'.record.ticks, n)
  {
    DecidedTicks(cfg, w, e);
    var d := Decided(cfg, w, e);
    if e.enabled && d.procs.pids != {} && !Holds(cfg, d) {
      var t := RecordOf(cfg, d, e);
      ReconFloor(cfg, d);
      var ticks := Step(cfg, w, e).record.ticks;
      assert ticks == w.record.ticks + [t];
      forall i | n < i < |ticks| ensures Apart(cfg, ticks[i - 1], ticks[i]) {
        if i < |w.record.ticks| {
          assert Apart(cfg, w.record.ticks[i - 1], w.record.ticks[i]);
        }
      }
    }
  }

  lemma {:induction false} RunKeepsSpacing(cfg: Config, w: W, script: seq<Env>, n: nat)
    requires Untoggled(cfg, w, script) && n <= |w.record.ticks| && LastFullIsTick(w, n) && Spaced(cfg, w.record.ticks, n)
    ensures |w.record.ticks| <= |Run(cfg, w, script).record.ticks| && Spaced(cfg, Run(cfg, w, script).record.ticks, n)
    decreases script
  {
    if script != [] && !script[0].stopping {
      StepKeepsSpacing(cfg, w, script[0], n);
      RunKeepsSpacing(cfg, Step(cfg, w, script[0]), script[1..], n);
    }
  }

  lemma {:induction false} SpacingAddsUp(cfg: Config, ticks: seq<TickRecord>, n: nat, i: nat, j: nat)
    requires Spaced(cfg, ticks, n) && n <= i < j < |ticks|
    ensures ticks[j].start - ticks[i].end >= (j - i) * TickFloor(cfg)
    decreases j
  {
    assert Apart(cfg, ticks[j - 1], ticks[j]);
    if i < j - 1 {
      assert Apart(cfg, ticks[j - 2], ticks[j - 1]);
      SpacingAddsUp(cfg, ticks, n, i, j - 1);
      assert (j - i) * TickFloor(cfg) == (j - 1 - i) * TickFloor(cfg) + TickFloor(cfg);
    }
  }

  /** As long as no switch is flipped, whatever events, process changes and failures there are: consecutive
      ticks keep the smaller of the burst and the reconcile interval between them, so ticking is bounded. */
  lemma TicksKeepTheirDistance(cfg: Config, w: W, script: seq<Env>, i: nat, j: nat)
    requires Untoggled(cfg, w, script)
    requires |w.record.ticks| <= i < j < |Run(cfg, w, script).record.ticks|
    ensures var ticks := Run(cfg, w, script).record.ticks;
            && ticks[j].start - ticks[j - 1].end >= Min(BurstInterval(cfg), ticks[j].recon)
            && ticks[j].start - ticks[i].end >= (j - i) * TickFloor(cfg)
  {
    var n := |w.record.ticks|;
    RunKeepsSpacing(cfg, w, script, n);
    var ticks := Run(cfg, w, script).record.ticks;
    assert Apart(cfg, ticks[j - 1], ticks[j]);
    SpacingAddsUp(cfg, ticks, n, i, j);
  }

  // ---------------------------------------------------------------- bursts end

  /** How many ticks may still run ahead of the reconcile interval. */
  function Credit(w: W): nat { Max(w.pace.burstLeft, if w.pace.pending then 1 else 0) }

  function Early(ticks: seq<TickRecord>): nat {
    if ticks == [] then 0 else Early(ticks[..|ticks| - 1]) + if ticks[|ticks| - 1].Early() then 1 else 0
  }

  /** Ticks that panicked into the long pause. */
  function BackedOff(ticks: seq<TickRecord>): nat {
    if ticks == [] then 0 else BackedOff(ticks[..|ticks| - 1]) + if ticks[|ticks| - 1].backedOff then 1 else 0
  }

  /** Nothing happens: no relevant event and no change of processes. */
  predicate Calm(cfg: Config, w: W, e: Env) {
    e.enabled ==>
      var l := Looked(cfg, Toggled(w, e), e);
      l.procs.pids == w.procs.lastPids && !Relevant(l.procs.pids, e.events)
  }

  ghost predicate CalmRun(cfg: Config, w: W, script: seq<Env>)
    decreases script
  {
    script != [] ==> Calm(cfg, w, script[0]) && CalmRun(cfg, Step(cfg, w, script[0]), script[1..])
  }

  lemma CalmStepSpends(cfg: Config, w: W, e: Env)
    requires Calm(cfg, w, e)
    ensures var w' := Step(cfg, w, e);
            Early(w'.record.ticks) + BackedOff(w.record.ticks) + Credit(w') <= Early(w.record.ticks) + BackedOff(w'.record.ticks) + Credit(w)
  {
    DecidedTicks(cfg, w, e);
    if e.enabled {
      var d, l := Decided(cfg, w, e), Looked(cfg, Toggled(w, e), e);
      assert l.procs.lastPids == w.procs.lastPids && l.pace.burstLeft == w.pace.burstLeft && l.pace.pending == w.pace.pending;
      assert d.pace.burstLeft == w.pace.burstLeft && d.pace.pending == w.pace.pending;
      if d.procs.pids != {} && !Holds(cfg, d) {
        var ticks := Step(cfg, w, e).record.ticks;
        assert ticks == w.record.ticks + [RecordOf(cfg, d, e)] && ticks[..|ticks| - 1] == w.record.ticks;
      }
    }
  }

  lemma {:induction false} CalmRunSpends(cfg: Config, w: W, script: seq<Env>)
    requires CalmRun(cfg, w, script)
    ensures var w' := Run(cfg, w, script);
            Early(w'.record.ticks) + BackedOff(w.record.ticks) + Credit(w') <= Early(w.record.ticks) + BackedOff(w'.record.ticks) + Credit(w)
    decreases script
  {
    if script != [] && !script[0].stopping {
      CalmStepSpends(cfg, w, script[0]);
      CalmRunSpends(cfg, Step(cfg, w, script[0]), script[1..]);
    }
  }

  lemma {:induction false} CreditIsBounded(cfg: Config, w: W, script: seq<Env>)
    requires w.pace.burstLeft <= BurstIterations(cfg)
    ensures Run(cfg, w, script).pace.burstLeft <= BurstIterations(cfg)
    decreases script
  {
    if script != [] && !script[0].stopping {
      DecidedTicks(cfg, w, script[0]);
      assert Step(cfg, w, script[0]).pace.burstLeft <= BurstIterations(cfg);
      CreditIsBounded(cfg, Step(cfg, w, script[0]), script[1..]);
    }
  }

  /** After any run, from the last event or process change on, at most the configured number of ticks (one to
      ten) runs ahead of the reconcile interval, and one more for every tick that panicked into the long pause. */
  lemma BurstsAreFinite(cfg: Config, now: int, was: Switches, script: seq<Env>, calm: seq<Env>)
    requires CalmRun(cfg, Run(cfg, Started(now, was), script), calm)
    ensures var w := Run(cfg, Started(now, was), script);
            var w' := Run(cfg, w, calm);
            Early(w'.record.ticks) - Early(w.record.ticks) <= BurstIterations(cfg) + BackedOff(w'.record.ticks) - BackedOff(w.record.ticks)
    ensures 1 <= BurstIterations(cfg) <= 10
  {
    CreditIsBounded(cfg, Started(now, was), script);
    CalmRunSpends(cfg, Run(cfg, Started(now, was), script), calm);
  }

  // ---------------------------------------------------------------- when panicking ticks outlive the burst

  /** The longest reconcile interval there is: hooked, and quiet for as long as it matters. */
  function LongestRecon(cfg: Config): int { ReconcileInterval(cfg, false, 160000, true) }

  lemma ReconIsBounded(cfg: Config, w: W)
    ensures Recon(cfg, w) <= LongestRecon(cfg)
    ensures w.pace.lastEventAt.None? && w.hooks.installed.Some? && w.now - w.pace.quietSince >= 160000 ==> Recon(cfg, w) == LongestRecon(cfg)
  {
    var quiet := w.now - w.pace.quietSince;
    ReconcileBacksOff(cfg, Min(quiet, 160000), 160000);
    ReconcileBacksOff(cfg, Min(quiet, 160000), quiet);
  }

  /** With no interval above the burst interval there is nothing to run ahead of. */
  lemma NoTickIsEarly(cfg: Config, d: W, e: Env)
    requires !Holds(cfg, d) && LongestRecon(cfg) <= BurstInterval(cfg)
    ensures !RecordOf(cfg, d, e).Early()
  {
    ReconIsBounded(cfg, d);
  }

  lemma {:induction false} NothingRunsAhead(cfg: Config, w: W, script: seq<Env>)
    requires LongestRecon(cfg) <= BurstInterval(cfg)
    ensures Early(Run(cfg, w, script).record.ticks) == Early(w.record.ticks)
    decreases script
  {
    if script != [] && !script[0].stopping {
      var e := script[0];
      DecidedTicks(cfg, w, e);
      var d, w1 := Decided(cfg, w, e), Step(cfg, w, e);
      if e.enabled && d.procs.pids != {} && !Holds(cfg, d) {
        NoTickIsEarly(cfg, d, e);
        assert w1.record.ticks == w.record.ticks + [RecordOf(cfg, d, e)];
      }
      assert Early(w1.record.ticks) == Early(w.record.ticks);
      NothingRunsAhead(cfg, w1, script[1..]);
    }
  }

  /** A long enough time for every scan interval and for all the quiet that matters. */
  function Ages(cfg: Config): nat { cfg.pidScanIntervalMs + 160000 }

  /** The tick takes long and panics; the sleep after it lasts a burst interval. */
  function Panic(cfg: Config, pids: set<Pid>): Env {
    Env(false, false, true, false, true, false, 0, true, Some(pids), 0, true, [], Ages(cfg), false, BurstInterval(cfg))
  }

  /** Switched on, no event ever seen, and time for a scan. */
  predicate Rested(cfg: Config, w: W) {
    && w.was == ON && !w.pace.pending && w.pace.lastEventAt.None? && w.pace.quietSince <= w.now
    && w.Since() >= BurstInterval(cfg)
    && (w.procs.lastScan.Some? ==> w.now - w.procs.lastScan.value >= Ages(cfg))
  }

  /** Nothing keeps the hook from being installed for these processes, if it is not. */
  predicate CanHook(h: HookState, pids: set<Pid>) {
    && pids != {}
    && if h.installed.Some? then h.installed.value == h.wanted else pids != h.wanted
  }

  lemma PanicIsDecided(cfg: Config, w: W, pids: set<Pid>)
    requires Rested(cfg, w) && CanHook(w.hooks, pids)
    ensures var d := Decided(cfg, w, Panic(cfg, pids));
            && d.now == w.now && d.was == ON && d.procs.pids == d.procs.lastPids == pids && d.procs.lastScan == Some(d.now)
            && d.hooks.installed == Some(pids) && d.hooks.wanted == pids
            && d.record.ticks == w.record.ticks
            && d.pace == if pids != w.procs.lastPids then w.pace.(burstLeft := BurstIterations(cfg), quietSince := d.now) else w.pace
  {
    assert ScanDue(cfg, w, Panic(cfg, pids));
    DecidedIs(cfg, w, Panic(cfg, pids));
  }

  lemma PanicTicks(cfg: Config, d: W, pids: set<Pid>)
    requires d.was == ON && !d.pace.pending && d.pace.lastEventAt.None? && d.pace.quietSince <= d.now
    requires d.Since() >= BurstInterval(cfg) && d.pace.burstLeft > 0 && d.procs.lastScan == Some(d.now)
    ensures !Holds(cfg, d)
    ensures var w' := Ticked(cfg, d, Panic(cfg, pids));
            && Rested(cfg, w') && w'.Since() == BurstInterval(cfg) && w'.now - w'.pace.quietSince >= 160000
            && w'.procs == d.procs && w'.hooks == d.hooks && w'.pace.panics == d.pace.panics + 1
            && w'.pace.burstLeft == d.pace.burstLeft - (if d.pace.panics + 1 >= PANIC_BACKOFF_AFTER then 0 else 1)
            && w'.record.ticks == d.record.ticks + [RecordOf(cfg, d, Panic(cfg, pids))]
  {
  }

  /** One panicking iteration, with a change of processes or in the middle of a burst. */
  lemma PanicRound(cfg: Config, w: W, pids: set<Pid>)
    requires Rested(cfg, w) && CanHook(w.hooks, pids)
    requires pids != w.procs.lastPids || w.pace.burstLeft > 0
    ensures var d, w' := Decided(cfg, w, Panic(cfg, pids)), Step(cfg, w, Panic(cfg, pids));
            && Rested(cfg, w') && w'.Since() == BurstInterval(cfg) && w'.now - w'.pace.quietSince >= 160000
            && w'.procs.pids == w'.procs.lastPids == pids && w'.hooks.installed == Some(pids) && w'.hooks.wanted == pids
            && w'.pace.panics == w.pace.panics + 1
            && w'.pace.burstLeft == (if pids != w.procs.lastPids then BurstIterations(cfg) else w.pace.burstLeft)
                                    - (if w.pace.panics + 1 >= PANIC_BACKOFF_AFTER then 0 else 1)
            && w'.record.ticks == w.record.ticks + [RecordOf(cfg, d, Panic(cfg, pids))]
  {
    PanicIsDecided(cfg, w, pids);
    PanicTicks(cfg, Decided(cfg, w, Panic(cfg, pids)), pids);
  }

  /** In the middle of a burst, two panics behind it and quiet for long. */
  predicate Panicking(cfg: Config, w: W) {
    && Rested(cfg, w) && w.Since() == BurstInterval(cfg) && w.now - w.pace.quietSince >= 160000
    && w.procs.pids == w.procs.lastPids == {7} && w.hooks.installed == Some({7}) && w.hooks.wanted == {7}
    && w.pace.panics >= 2 && w.pace.burstLeft > 0
  }

  lemma PanicIsEarly(cfg: Config, w: W)
    requires Panicking(cfg, w) && BurstInterval(cfg) < LongestRecon(cfg)
    ensures var w' := Step(cfg, w, Panic(cfg, {7}));
            Calm(cfg, w, Panic(cfg, {7})) && Panicking(cfg, w') && Early(w'.record.ticks) == Early(w.record.ticks) + 1
  {
    var e := Panic(cfg, {7});
    PanicRound(cfg, w, {7});
    PanicIsDecided(cfg, w, {7});
    ReconIsBounded(cfg, Decided(cfg, w, e));
    LookedIs(cfg, Toggled(w, e), e);
    var t := RecordOf(cfg, Decided(cfg, w, e), e);
    var ticks := w.record.ticks + [t];
    assert t.Early() && ticks[..|ticks| - 1] == w.record.ticks;
  }

  function Panics(cfg: Config, n: nat): seq<Env> { if n == 0 then [] else [Panic(cfg, {7})] + Panics(cfg, n - 1) }

  lemma FirstStep(cfg: Config, w: W, e: Env, rest: seq<Env>)
    requires !e.stopping
    ensures Run(cfg, w, [e] + rest) == Run(cfg, Step(cfg, w, e), rest)
    ensures Calm(cfg, w, e) && CalmRun(cfg, Step(cfg, w, e), rest) ==> CalmRun(cfg, w, [e] + rest)
  {
    assert ([e] + rest)[1..] == rest;
  }

  lemma {:induction false} PanicsKeepComing(cfg: Config, w: W, n: nat)
    requires Panicking(cfg, w) && BurstInterval(cfg) < LongestRecon(cfg)
    ensures CalmRun(cfg, w, Panics(cfg, n))
    ensures Early(Run(cfg, w, Panics(cfg, n)).record.ticks) == Early(w.record.ticks) + n
    decreases n
  {
    if n > 0 {
      PanicIsEarly(cfg, w);
      PanicsKeepComing(cfg, Step(cfg, w, Panic(cfg, {7})), n - 1);
      FirstStep(cfg, w, Panic(cfg, {7}), Panics(cfg, n - 1));
    }
  }

  /** Two panics, and then a change of processes before the third. */
  function Opening(cfg: Config): seq<Env> { [Panic(cfg, {7}), Panic(cfg, {8}), Panic(cfg, {7})] }

  lemma ThreeSteps(cfg: Config, w: W, a: Env, b: Env, c: Env)
    requires !a.stopping && !b.stopping && !c.stopping
    ensures Run(cfg, w, [a, b, c]) == Step(cfg, Step(cfg, Step(cfg, w, a), b), c)
  {
    assert [a, b, c][1..] == [b, c];
    TwoSteps(cfg, Step(cfg, w, a), b, c);
  }

  lemma PanickingIsReached(cfg: Config, now: int)
    ensures Panicking(cfg, Run(cfg, Started(now, ON), Opening(cfg)))
  {
    var a, b := Panic(cfg, {7}), Panic(cfg, {8});
    var w := Started(now, ON);
    ThreeSteps(cfg, w, a, b, a);
    assert 7 in {7} && 8 in {8} && 7 !in {8};
    PanicRound(cfg, w, {7});
    PanicRound(cfg, Step(cfg, w, a), {8});
    PanicRound(cfg, Step(cfg, Step(cfg, w, a), b), {7});
  }

  /** A burst whose ticks keep panicking does not end: the pause leaves the burst counter alone, so without
      any event or process change every further tick runs ahead of the reconcile interval. */
  lemma PanicsOutliveTheBurst(cfg: Config, now: int, n: nat)
    requires BurstInterval(cfg) < LongestRecon(cfg)
    ensures var w := Run(cfg, Started(now, ON), Opening(cfg));
            CalmRun(cfg, w, Panics(cfg, n)) && Early(Run(cfg, w, Panics(cfg, n)).record.ticks) == Early(w.record.ticks) + n
  {
    PanickingIsReached(cfg, now);
    PanicsKeepComing(cfg, Run(cfg, Started(now, ON), Opening(cfg)), n);
  }

  /** From the last event or process change of this run on, more ticks than configured run ahead. */
  ghost predicate Overruns(cfg: Config, now: int, was: Switches, script: seq<Env>, calm: seq<Env>) {
    var w := Run(cfg, Started(now, was), script);
    CalmRun(cfg, w, calm) && Early(Run(cfg, w, calm).record.ticks) > Early(w.record.ticks) + BurstIterations(cfg)
  }

  /** The bound on early ticks, panicking ones included, fails for a configuration if and only if its
      longest reconcile interval exceeds its burst interval. */
  lemma BurstsOverrunExactly(cfg: Config)
    ensures (exists now, was, script, calm :: Overruns(cfg, now, was, script, calm)) <==> BurstInterval(cfg) < LongestRecon(cfg)
  {
    if BurstInterval(cfg) < LongestRecon(cfg) {
      PanicsOutliveTheBurst(cfg, 0, BurstIterations(cfg) + 1);
      assert Overruns(cfg, 0, ON, Opening(cfg), Panics(cfg, BurstIterations(cfg) + 1));
    } else {
      forall now, was, script, calm ensures !Overruns(cfg, now, was, script, calm) {
        NothingRunsAhead(cfg, Run(cfg, Started(now, was), script), calm);
      }
    }
  }
}

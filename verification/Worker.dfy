/** The worker loop: when to look for processes, when to hook, when to tick and how long to sleep.
    Times are milliseconds on one clock; everything outside is read from an `Env`, one per iteration. */
module Worker {
  import opened Model
  import opened Arithmetic
  import opened Control

  // ---------------------------------------------------------------- schedule.rs

  datatype Config = Config(
    pollIntervalMs: nat,
    idlePollIntervalMs: nat,
    idleBackoffMaxMs: nat,
    pidScanIntervalMs: nat,
    lowLatencyMode: bool,
    burstScanIterations: nat,
    burstScanIntervalMs: nat)

  function Clamp(n: int, lo: int, hi: int): int { if n < lo then lo else if n > hi then hi else n }

  const ALIVE_RESYNC_INTERVAL := 30000
  const ABSENT_MAX_WAIT := 1000
  const QUIET_BEFORE_BACKOFF := 10000
  const ACTIVE_WINDOW := 2000
  const PANIC_BACKOFF_AFTER := 3
  const PANIC_BACKOFF := 5000

  function PidScanInterval(cfg: Config, alive: bool, absentFor: int): int {
    var base := Max(cfg.pidScanIntervalMs, 200);
    if cfg.lowLatencyMode then if alive then Max(base, 2000) else base
    else if alive then ALIVE_RESYNC_INTERVAL
    else Max(base, if absentFor >= 30000 then 2000 else if absentFor >= 5000 then 1000 else 0)
  }

  function ReconcileInterval(cfg: Config, active: bool, quietFor: int, hooked: bool): int {
    var idle := Max(cfg.idlePollIntervalMs, 200);
    if active then Min(Max(cfg.pollIntervalMs, 50), idle)
    else if !hooked || cfg.idleBackoffMaxMs <= idle || quietFor < QUIET_BEFORE_BACKOFF then idle
    else
      var doublings := Min((quietFor - QUIET_BEFORE_BACKOFF) / 10000 + 1, 16);
      Min(idle * Pow2(doublings), cfg.idleBackoffMaxMs)
  }

  function BurstInterval(cfg: Config): int { Clamp(cfg.burstScanIntervalMs, 10, 1000) }

  function BurstIterations(cfg: Config): nat { Clamp(cfg.burstScanIterations, 1, 10) }

  lemma {:induction false} Pow2Grows(a: nat, b: nat)
    requires a <= b
    ensures Pow2(a) <= Pow2(b)
  {
    if a < b {
      Pow2Grows(a, b - 1);
    }
  }

  lemma ScaledGrows(idle: int, p: int, q: int)
    requires 0 <= idle && p <= q
    ensures idle * p <= idle * q
  {
  }

  /** Quiet never makes the worker look more often; an active window is looked at at least as often as an
      idle one; without the hook there is no backing off; and nothing exceeds the larger configured bound. */
  lemma ReconcileBacksOff(cfg: Config, q1: int, q2: int)
    requires q1 <= q2
    ensures var at := (q, hooked) => ReconcileInterval(cfg, false, q, hooked);
            && at(q1, true) <= at(q2, true)
            && at(q1, false) == at(q2, false) <= at(q1, true)
            && at(q2, true) <= Max(Max(cfg.idlePollIntervalMs, 200), cfg.idleBackoffMaxMs)
            && ReconcileInterval(cfg, true, q2, true) <= at(q1, true)
  {
    var idle := Max(cfg.idlePollIntervalMs, 200);
    if cfg.idleBackoffMaxMs > idle && q2 >= QUIET_BEFORE_BACKOFF {
      var d2 := Min((q2 - QUIET_BEFORE_BACKOFF) / 10000 + 1, 16);
      Pow2Grows(0, d2);
      ScaledGrows(idle, 1, Pow2(d2));
      if q1 >= QUIET_BEFORE_BACKOFF {
        var d1 := Min((q1 - QUIET_BEFORE_BACKOFF) / 10000 + 1, 16);
        Pow2Grows(d1, d2);
        ScaledGrows(idle, Pow2(d1), Pow2(d2));
        Pow2Grows(0, d1);
        ScaledGrows(idle, 1, Pow2(d1));
      }
    }
  }

  // ---------------------------------------------------------------- the worker's state

  datatype Event = Event(pid: Pid, followUp: bool)

  /** What one iteration finds outside: the flags, the system's answers and how long things take. */
  datatype Env = Env(
    stopping: bool,
    reset: bool,
    enabled: bool,
    aggressive: bool,
    apply: bool,
    held: bool,
    drainFailures: nat,
    alive: bool,
    scan: Option<set<Pid>>,
    scanTime: nat,
    installs: bool,
    events: seq<Event>,
    tickTime: nat,
    completes: bool,
    slept: nat)

  /** One tick: when it ran, the interval then in force, and why. `scanTime` is what its own iteration spent
      on looking for processes; `pendingAt` is when the first event it answers was seen. */
  datatype TickRecord = TickRecord(
    start: int,
    end: int,
    recon: int,
    sinceLast: int,
    pending: bool,
    pendingAt: int,
    scanTime: int,
    completed: bool,
    backedOff: bool)
  {
    /** Ahead of the reconcile interval. */
    predicate Early() { sinceLast < recon }
  }

  /** The known processes: `lastPids` are those the pacing last reacted to. */
  datatype Processes = Processes(pids: set<Pid>, lastScan: Option<int>, absentSince: int, lastPids: set<Pid>)

  /** The event hook: the processes the installed one was installed for, and those it should serve. */
  datatype HookState = HookState(installed: Option<set<Pid>>, wanted: set<Pid>, retry: RetryState, degraded: bool)

  datatype Pacing = Pacing(
    burstLeft: nat,
    pending: bool,
    lastFull: int,
    lastEventAt: Option<int>,
    quietSince: int,
    panics: nat)

  datatype Switches = Switches(enabled: bool, aggressive: bool)

  /** What happened so far, for the properties only. */
  datatype Record = Record(ticks: seq<TickRecord>, pendingAt: int, scanTime: int)

  datatype W = W(
    now: int,
    procs: Processes,
    hooks: HookState,
    off: RetryState,
    pace: Pacing,
    was: Switches,
    record: Record)
  {
    function Since(): int { now - pace.lastFull }
  }

  const NO_HOOK := HookState(None, {}, READY, false)

  function Started(now: int, was: Switches): W {
    W(now, Processes({}, None, now, {}), NO_HOOK, READY, Pacing(0, false, now - 10000, None, now, 0), was,
      Record([], 0, 0))
  }

  /** A sleep ends early when a message or a control change arrives. */
  function Slept(w: W, e: Env, atMost: int): W { w.(now := w.now + Min(e.slept, Max(atMost, 0))) }

  predicate Toggles(w: W, e: Env) { e.enabled != w.was.enabled || e.aggressive != w.was.aggressive }

  function Toggled(w: W, e: Env): W {
    var was := Switches(e.enabled, e.aggressive);
    if Toggles(w, e)
    then
      w.(pace := w.pace.(lastFull := w.now - 10000),
         procs := if e.enabled && !w.was.enabled then w.procs.(lastScan := None) else w.procs,
         off := READY,
         was := was)
    else w.(off := if e.reset then READY else w.off, was := was)
  }

  function Off(w: W, e: Env): W {
    var off := OffStep(w.off, e.apply, e.held, e.drainFailures, w.now);
    Slept(w.(hooks := NO_HOOK, off := off), e, Wait(OffRestoreCadence, off, w.now))
  }

  function ScanIntervalOf(cfg: Config, w: W, e: Env): int { PidScanInterval(cfg, e.alive, w.now - w.procs.absentSince) }

  function Looked(cfg: Config, w: W, e: Env): W {
    if w.procs.lastScan.Some? && w.now - w.procs.lastScan.value < ScanIntervalOf(cfg, w, e) then w.(record := w.record.(scanTime := 0))
    else
      var now := w.now + e.scanTime;
      w.(now := now,
         record := w.record.(scanTime := e.scanTime),
         procs := w.procs.(lastScan := Some(now), pids := if e.scan.Some? then e.scan.value else w.procs.pids))
  }

  function Noticed(cfg: Config, w: W): W {
    var procs := w.procs.(absentSince := if w.procs.pids != {} then w.now else w.procs.absentSince, lastPids := w.procs.pids);
    if w.procs.pids != w.procs.lastPids
    then w.(procs := procs, pace := w.pace.(burstLeft := BurstIterations(cfg), quietSince := w.now))
    else w.(procs := procs)
  }

  function Scanned(cfg: Config, w: W, e: Env): W { Noticed(cfg, Looked(cfg, w, e)) }

  /** The hook is dropped when the processes changed and installed when it is missing and due. */
  function HookFor(h: HookState, pids: set<Pid>, installs: bool, now: int): HookState {
    var h1 := if pids != h.wanted then HookState(None, pids, READY, pids != {} && h.degraded) else h;
    if pids == {} || h1.installed.Some? || !h1.retry.Due(now) then h1
    else if installs then HookState(Some(pids), pids, READY, false)
    else HookState(None, pids, Failed(HookCadence, h1.retry, now), true)
  }

  function Hooked(w: W, e: Env): W { w.(hooks := HookFor(w.hooks, w.procs.pids, e.installs, w.now)) }

  predicate Relevant(pids: set<Pid>, events: seq<Event>) { exists i :: 0 <= i < |events| && events[i].pid in pids }

  predicate FollowUp(pids: set<Pid>, events: seq<Event>) {
    exists i :: 0 <= i < |events| && events[i].pid in pids && events[i].followUp
  }

  function Drained(cfg: Config, w: W, e: Env): W {
    if !Relevant(w.procs.pids, e.events) then w
    else
      w.(pace := w.pace.(pending := true, lastEventAt := Some(w.now), quietSince := w.now,
                         burstLeft := if FollowUp(w.procs.pids, e.events) then BurstIterations(cfg) else w.pace.burstLeft),
         record := if w.pace.pending then w.record else w.record.(pendingAt := w.now))
  }

  function Recon(cfg: Config, w: W): int {
    ReconcileInterval(cfg, w.pace.lastEventAt.Some? && w.now - w.pace.lastEventAt.value < ACTIVE_WINDOW,
                      w.now - w.pace.quietSince, w.hooks.installed.Some?)
  }

  function Absent(w: W, e: Env, scanInterval: int): W {
    var wait := if w.procs.lastScan.Some? then Max(scanInterval - (w.now - w.procs.lastScan.value), 0) else 0;
    Slept(w.(off := OffStep(w.off, e.apply, e.held, e.drainFailures, w.now), pace := w.pace.(lastEventAt := None)), e,
          Clamp(wait, 10, ABSENT_MAX_WAIT))
  }

  /** Too early for a tick. */
  predicate Holds(cfg: Config, w: W) {
    || (w.pace.pending && w.Since() < BurstInterval(cfg))
    || (!w.pace.pending && w.Since() < Recon(cfg, w) && !(w.pace.burstLeft > 0 && w.Since() >= BurstInterval(cfg)))
  }

  function HoldTime(cfg: Config, w: W): int {
    var until := if w.pace.pending || w.pace.burstLeft > 0 then BurstInterval(cfg) else Recon(cfg, w);
    var wait := Max(until - w.Since(), 0);
    Max(if w.hooks.installed.None? then Min(wait, Wait(HookCadence, w.hooks.retry, w.now)) else wait, 1)
  }

  function RecordOf(cfg: Config, w: W, e: Env): TickRecord {
    TickRecord(w.now, w.now + e.tickTime, Recon(cfg, w), w.Since(), w.pace.pending, w.record.pendingAt, w.record.scanTime, e.completes,
               !e.completes && w.pace.panics + 1 >= PANIC_BACKOFF_AFTER)
  }

  function Ticked(cfg: Config, w: W, e: Env): W {
    var t := RecordOf(cfg, w, e);
    var record := w.record.(ticks := w.record.ticks + [t]);
    var pace := w.pace.(pending := false, lastFull := t.end, panics := if e.completes then 0 else w.pace.panics + 1);
    if t.backedOff then Slept(w.(now := t.end, pace := pace, record := record), e, PANIC_BACKOFF)
    else if pace.burstLeft > 0 then
      Slept(w.(now := t.end, pace := pace.(burstLeft := pace.burstLeft - 1), record := record), e, BurstInterval(cfg))
    else w.(now := t.end, pace := pace, record := record)
  }

  /** The state in which an enabled iteration decides whether to tick. */
  function Decided(cfg: Config, w: W, e: Env): W { Drained(cfg, Hooked(Scanned(cfg, Toggled(w, e), e), e), e) }

  function Paced(cfg: Config, w: W, e: Env, scanInterval: int): W {
    if w.procs.pids == {} then Absent(w, e, scanInterval)
    else if Holds(cfg, w) then Slept(w, e, HoldTime(cfg, w))
    else Ticked(cfg, w, e)
  }

  function Step(cfg: Config, w: W, e: Env): W {
    if !e.enabled then Off(Toggled(w, e), e)
    else Paced(cfg, Decided(cfg, w, e), e, ScanIntervalOf(cfg, Toggled(w, e), e))
  }

  /** The loop over what the outside offers, up to the stop request. */
  function Run(cfg: Config, w: W, script: seq<Env>): W
    decreases script
  {
    if script == [] || script[0].stopping then w else Run(cfg, Step(cfg, w, script[0]), script[1..])
  }

  // ---------------------------------------------------------------- the loop

  class Loop {
    const cfg: Config
    var now: int
    var procs: Processes
    var hooks: HookState
    var off: RetryState
    var pace: Pacing
    var was: Switches
    ghost var record: Record

    constructor (cfg: Config, now: int, was: Switches)
      ensures this.cfg == cfg && State() == Started(now, was)
    {
      this.cfg, this.now, this.was := cfg, now, was;
      procs, hooks, off := Processes({}, None, now, {}), NO_HOOK, READY;
      pace, record := Pacing(0, false, now - 10000, None, now, 0), Record([], 0, 0);
    }

    ghost function State(): W
      reads this
    {
      W(now, procs, hooks, off, pace, was, record)
    }

    method Sleep(e: Env, atMost: int)
      modifies this`now
      ensures now == old(now) + Min(e.slept, Max(atMost, 0))
    {
      now := now + Min(e.slept, Max(atMost, 0));
    }

    method Toggle(e: Env)
      modifies this
      ensures State() == Toggled(old(State()), e)
    {
      if e.reset {
        off := READY;
      }
      if e.enabled != was.enabled || e.aggressive != was.aggressive {
        pace := pace.(lastFull := now - 10000);
        if e.enabled && !was.enabled {
          procs := procs.(lastScan := None);
        }
        off := READY;
      }
      was := Switches(e.enabled, e.aggressive);
    }

    method SwitchedOff(e: Env)
      modifies this
      ensures State() == Off(old(State()), e)
    {
      hooks := NO_HOOK;
      off := OffStep(off, e.apply, e.held, e.drainFailures, now);
      Sleep(e, Wait(OffRestoreCadence, off, now));
    }

    method ScanProcesses(e: Env) returns (scanInterval: int)
      modifies this
      ensures State() == Scanned(cfg, old(State()), e)
      ensures scanInterval == ScanIntervalOf(cfg, old(State()), e)
    {
      scanInterval := PidScanInterval(cfg, e.alive, now - procs.absentSince);
      if procs.lastScan.None? || now - procs.lastScan.value >= scanInterval {
        now := now + e.scanTime;
        record := record.(scanTime := e.scanTime);
        if e.scan.Some? {
          procs := procs.(pids := e.scan.value);
        }
        procs := procs.(lastScan := Some(now));
      } else {
        record := record.(scanTime := 0);
      }
      if procs.pids != {} {
        procs := procs.(absentSince := now);
      }
      if procs.pids != procs.lastPids {
        pace := pace.(burstLeft := BurstIterations(cfg), quietSince := now);
        procs := procs.(lastPids := procs.pids);
      }
    }

    method KeepHook(e: Env)
      modifies this`hooks
      ensures State() == Hooked(old(State()), e)
    {
      var pids := procs.pids;
      if pids != hooks.wanted {
        hooks := hooks.(installed := None, retry := READY, wanted := pids);
        if pids == {} {
          hooks := hooks.(degraded := false);
        }
      }
      if pids != {} && hooks.installed.None? && hooks.retry.Due(now) {
        if e.installs {
          hooks := hooks.(installed := Some(pids), retry := READY, degraded := false);
        } else {
          hooks := hooks.(retry := Failed(HookCadence, hooks.retry, now), degraded := true);
        }
      }
    }

    method DrainEvents(e: Env)
      modifies this`pace, this`record
      ensures State() == Drained(cfg, old(State()), e)
    {
      var any, followUp := AnyRelevant(e.events, procs.pids);
      if any {
        if !pace.pending {
          record := record.(pendingAt := now);
        }
        pace := pace.(pending := true, lastEventAt := Some(now), quietSince := now);
        if followUp {
          pace := pace.(burstLeft := BurstIterations(cfg));
        }
      }
    }

    method NobodyThere(e: Env, scanInterval: int)
      modifies this
      ensures State() == Absent(old(State()), e, scanInterval)
    {
      off := OffStep(off, e.apply, e.held, e.drainFailures, now);
      pace := pace.(lastEventAt := None);
      var wait := if procs.lastScan.Some? then Max(scanInterval - (now - procs.lastScan.value), 0) else 0;
      Sleep(e, Clamp(wait, 10, ABSENT_MAX_WAIT));
    }

    method ReconcileTime() returns (recon: int)
      ensures recon == Recon(cfg, State())
    {
      var active := pace.lastEventAt.Some? && now - pace.lastEventAt.value < ACTIVE_WINDOW;
      recon := ReconcileInterval(cfg, active, now - pace.quietSince, hooks.installed.Some?);
    }

    method Tick(e: Env)
      modifies this
      ensures State() == Ticked(cfg, old(State()), e)
    {
      record := record.(ticks := record.ticks + [RecordOf(cfg, State(), e)]);
      pace := pace.(pending := false);
      now := now + e.tickTime;
      pace := pace.(lastFull := now, panics := if e.completes then 0 else pace.panics + 1);
      if !e.completes && pace.panics >= PANIC_BACKOFF_AFTER {
        Sleep(e, PANIC_BACKOFF);
        return;
      }
      if pace.burstLeft > 0 {
        pace := pace.(burstLeft := pace.burstLeft - 1);
        Sleep(e, BurstInterval(cfg));
      }
    }

    method Pace(e: Env, scanInterval: int)
      modifies this
      ensures State() == Paced(cfg, old(State()), e, scanInterval)
    {
      if procs.pids == {} {
        NobodyThere(e, scanInterval);
        return;
      }
      var recon := ReconcileTime();
      var since, burst := now - pace.lastFull, BurstInterval(cfg);
      var dueBurst := pace.burstLeft > 0 && since >= burst;
      if (pace.pending && since < burst) || (!pace.pending && since < recon && !dueBurst) {
        var wait := if pace.pending || pace.burstLeft > 0 then Max(burst - since, 0) else Max(recon - since, 0);
        if hooks.installed.None? {
          wait := Min(wait, Wait(HookCadence, hooks.retry, now));
        }
        Sleep(e, Max(wait, 1));
        return;
      }
      Tick(e);
    }

    method Iterate(e: Env)
      modifies this
      ensures State() == Step(cfg, old(State()), e)
    {
      Toggle(e);
      if !e.enabled {
        SwitchedOff(e);
        return;
      }
      var scanInterval := ScanProcesses(e);
      KeepHook(e);
      DrainEvents(e);
      Pace(e, scanInterval);
    }

    method RunWorker(script: seq<Env>)
      modifies this
      ensures State() == Run(cfg, old(State()), script)
    {
      var i := 0;
      while i < |script| && !script[i].stopping
        invariant 0 <= i <= |script|
        invariant Run(cfg, State(), script[i..]) == Run(cfg, old(State()), script)
      {
        assert script[i..][1..] == script[i + 1..];
        Iterate(script[i]);
        i := i + 1;
      }
    }
  }

  method AnyRelevant(events: seq<Event>, pids: set<Pid>) returns (any: bool, followUp: bool)
    ensures any == Relevant(pids, events) && followUp == FollowUp(pids, events)
  {
    any, followUp := false, false;
    var i := 0;
    while i < |events|
      invariant 0 <= i <= |events|
      invariant any <==> exists j :: 0 <= j < i && events[j].pid in pids
      invariant followUp <==> exists j :: 0 <= j < i && events[j].pid in pids && events[j].followUp
    {
      if events[i].pid in pids {
        any := true;
        followUp := followUp || events[i].followUp;
      }
      i := i + 1;
    }
  }
}

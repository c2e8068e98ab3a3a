/** One tick, from reading the windows to restoring those that are no longer wanted. It is one of the
    steps of the undo argument, and what that argument assumes of a tick holds by construction. */
module Ticking {
  import opened Model
  import opened Desktop
  import opened Engine
  import opened Signals
  import opened Evaluate
  import opened EvaluateLoops
  import opened GraphBuild
  import opened BuiltGraph
  import Provenance
  import Search
  import Undo
  import UndoRuns

  /** The identities this tick wants suppressed or closed. */
  function MatchedIdentities(g: WindowGraph, plan: Plan): set<WindowIdentity> {
    (set h | h in plan.hide && h in g.nodes :: g.nodes[h].Identity())
    + (set h | h in plan.close && h in g.nodes :: g.nodes[h].Identity())
    + (set p | p in plan.setPos && !p.ViewResize() && p.hwnd in g.nodes :: g.nodes[p.hwnd].Identity())
  }

  function LiveIdentities(g: WindowGraph): set<WindowIdentity> { set h | h in g.nodes :: g.nodes[h].Identity() }

  /** What a tick decides about the windows it sees. */
  function PlanFor(src: Source, pids: set<Pid>, settings: Settings, rules: Rules, states: States): Plan {
    PlanOf(Apply(Graph(src, pids), settings, rules, states).log)
  }

  function TickStep(src: Source, pids: set<Pid>, settings: Settings, rules: Rules, states: States, applying: bool,
                    order: seq<Snapshot>): (step: UndoRuns.Step)
    ensures step.Tick?
  {
    var g, plan := Graph(src, pids), PlanFor(src, pids, settings, rules, states);
    UndoRuns.Tick(g, pids, plan, MatchedIdentities(g, plan), applying, order)
  }

  /** Nothing to watch and nothing held: the tick does nothing at all. */
  predicate Idle(e: EngineState, pids: set<Pid>) { pids == {} && e.snapshots == map[] }

  function Cleaned(e: EngineState, src: Source, pids: set<Pid>, cleanup: bool): EngineState {
    if cleanup then e.(stale := PrunedStale(e.stale, e.snapshots, LiveIdentities(Graph(src, pids)))) else e
  }

  function EngineAfter(e: EngineState, src: Source, pids: set<Pid>, settings: Settings, rules: Rules, states: States,
                       applying: bool, cleanup: bool, order: seq<Snapshot>): EngineState {
    if Idle(e, pids) then e
    else UndoRuns.AfterTick(Cleaned(e, src, pids, cleanup), TickStep(src, pids, settings, rules, states, applying, order))
  }

  /** The stale windows are visited in the order of the snapshots the plan left. */
  predicate OrderFits(e: EngineState, src: Source, pids: set<Pid>, settings: Settings, rules: Rules, states: States, order: seq<Snapshot>) {
    var s := ApplyPlan(Held(e.desk, e.snapshots), Graph(src, pids), pids, PlanFor(src, pids, settings, rules, states));
    IsOrder(order, s.snapshots, map[])
  }

  lemma {:induction false} CaptureKeepsKeyed(s: Held, graph: WindowGraph, pids: set<Pid>, targets: seq<Hwnd>)
    requires Keyed(s.snapshots)
    ensures Keyed(CapturePass(s, graph, pids, targets).snapshots)
    decreases targets
  {
    if targets != [] {
      var s1 := s.(desk := s.desk.Looked(targets[0]));
      CaptureKeepsKeyed(if Engine.Verdict(s1.desk, graph, pids, targets[0]) then Remember(s1, graph, targets[0]) else s1,
                        graph, pids, targets[1..]);
    }
  }

  lemma {:induction false} PosKeepsKeyed(s: Held, graph: WindowGraph, pids: set<Pid>, places: seq<Pos>)
    requires Keyed(s.snapshots)
    ensures Keyed(PosPass(s, graph, pids, places).snapshots)
    decreases places
  {
    if places != [] {
      assert Keyed(PosOne(s, graph, pids, places[0]).snapshots);
      PosKeepsKeyed(PosOne(s, graph, pids, places[0]), graph, pids, places[1..]);
    }
  }

  /** Applying a plan keeps every snapshot filed under its own identity. */
  lemma ApplyKeepsKeyed(s: Held, graph: WindowGraph, pids: set<Pid>, plan: Plan)
    requires Keyed(s.snapshots)
    ensures Keyed(ApplyPlan(s, graph, pids, plan).snapshots)
  {
    if s.desk.live {
      CaptureKeepsKeyed(s, graph, pids, plan.hide + ShrinkTargets(plan.setPos));
      var s1 := CapturePass(s, graph, pids, plan.hide + ShrinkTargets(plan.setPos));
      PosKeepsKeyed(s1.(desk := HidePass(s1.desk, graph, pids, plan.hide)), graph, pids, plan.setPos);
    }
  }

  function StatesAfter(states: States, snapshots: Snapshots, src: Source, pids: set<Pid>, settings: Settings, rules: Rules, cleanup: bool): States {
    var after := Apply(Graph(src, pids), settings, rules, states).store.states;
    if cleanup then PrunedStates(after, snapshots, LiveIdentities(Graph(src, pids))) else after
  }

  method RunTick(api: Desktop, caches: EngineCaches, states: States, text: Hwnd -> WindowText, shown: Hwnd -> bool,
                 parentOf: Hwnd -> Hwnd, below: Hwnd -> seq<Hwnd>, pids: set<Pid>, settings: Settings, rules: Rules, applying: bool, cleanup: bool)
    returns (states': States, ghost order: seq<Snapshot>)
    requires Keyed(caches.snapshots)
    modifies api, caches
    ensures var src, e := Source(old(api.windows), text, shown, parentOf, below), old(caches.State(api));
            && caches.State(api) == EngineAfter(e, src, pids, settings, rules, states, applying, cleanup, order)
            && (applying && !Idle(e, pids) ==> OrderFits(e, src, pids, settings, rules, states, order))
            && states' == if Idle(e, pids) then states else StatesAfter(states, e.snapshots, src, pids, settings, rules, cleanup)
  {
    states', order := states, [];
    if pids == {} && caches.snapshots == map[] {
      return;
    }
    states', order := EvaluateAndApply(api, caches, states, Source(api.windows, text, shown, parentOf, below), pids, settings, rules, applying, cleanup);
  }

  /** Read the windows and decide; the diagnostic preview is only asked for when nothing will be applied. */
  method Decide(src: Source, pids: set<Pid>, settings: Settings, rules: Rules, states: States, applying: bool)
    returns (g: WindowGraph, plan: Plan, states': States)
    ensures g == Graph(src, pids) && plan == PlanFor(src, pids, settings, rules, states)
    ensures states' == Apply(g, settings, rules, states).store.states
  {
    g := BuildGraph(src, pids);
    var payloads;
    plan, payloads, states' := EvaluateGraph(g, settings, rules, states, !applying);
  }

  /** Forget the bookkeeping of windows that are neither present nor held. */
  method PruneGone(caches: EngineCaches, states: States, present: set<WindowIdentity>) returns (states': States)
    modifies caches`stale
    ensures states' == PrunedStates(states, caches.snapshots, present)
    ensures caches.stale == PrunedStale(old(caches.stale), caches.snapshots, present)
  {
    states' := map id | id in states && (id in present || id in caches.snapshots) :: states[id];
    caches.PruneStale(present);
  }

  method EvaluateAndApply(api: Desktop, caches: EngineCaches, states: States, src: Source, pids: set<Pid>, settings: Settings,
                          rules: Rules, applying: bool, cleanup: bool)
    returns (states': States, ghost order: seq<Snapshot>)
    requires Keyed(caches.snapshots)
    modifies api, caches
    ensures var e := Cleaned(old(caches.State(api)), src, pids, cleanup);
            caches.State(api) == UndoRuns.AfterTick(e, TickStep(src, pids, settings, rules, states, applying, order))
    ensures applying ==> OrderFits(old(caches.State(api)), src, pids, settings, rules, states, order)
    ensures states' == StatesAfter(states, old(caches.snapshots), src, pids, settings, rules, cleanup)
  {
    order := [];
    var g, plan;
    g, plan, states' := Decide(src, pids, settings, rules, states, applying);
    if cleanup {
      states' := PruneGone(caches, states', LiveIdentities(g));
    }
    if applying {
      order := ApplyAndRestore(api, caches, g, pids, plan);
    }
  }

  function PrunedStates(states: States, snapshots: Snapshots, present: set<WindowIdentity>): States {
    map id | id in states && (id in present || id in snapshots) :: states[id]
  }

  method ApplyAndRestore(api: Desktop, caches: EngineCaches, g: WindowGraph, pids: set<Pid>, plan: Plan)
    returns (ghost order: seq<Snapshot>)
    requires Keyed(caches.snapshots)
    modifies api, caches
    ensures var s := ApplyPlan(old(caches.Holding(api)), g, pids, plan);
            && IsOrder(order, s.snapshots, map[])
            && caches.State(api) == StalePass(EngineState(s.desk, s.snapshots, old(caches.stale)), MatchedIdentities(g, plan), IdentitySeq(order))
  {
    ghost var before := caches.Holding(api);
    caches.ApplyEvaluation(api, g, pids, plan);
    ApplyKeepsKeyed(before, g, pids, plan);
    order := [];
    if caches.snapshots != map[] {
      var failures;
      failures, order := caches.RestoreStaleHidden(api, MatchedIdentities(g, plan));
    } else {
      assert IsOrder(order, map[], map[]);
    }
  }

  // ---------------------------------------------------------------- the undo argument applies

  /** While the tick runs no window comes back to life or appears under an identity that is held or in the
      graph, and nobody switches the engine on. */
  ghost predicate QuietTick(e: EngineState, step: UndoRuns.Step)
    requires step.Tick?
  {
    var s := ApplyPlan(Held(e.desk, e.snapshots), step.graph, step.pids, step.plan);
    && Undo.Undisturbed(e.desk, s.desk, e.snapshots, step.graph)
    && Undo.Fresh(e.desk.fate, s.desk.looks, UndoRuns.AfterTick(e, step).desk.looks, s.snapshots.Keys)
  }

  /** A tick on the desktop as it is meets everything the undo argument assumes of graph and plan: the
      graph agrees with the desktop and view resizes only concern child windows. */
  lemma TickIsAllowed(w: UndoRuns.World, src: Source, pids: set<Pid>, settings: Settings, rules: Rules, states: States,
                      applying: bool, order: seq<Snapshot>)
    requires src.windows == w.engine.desk.windows && Sane(src)
    requires OrderFits(w.engine, src, pids, settings, rules, states, order)
    requires QuietTick(w.engine, TickStep(src, pids, settings, rules, states, applying, order))
    ensures UndoRuns.Allowed(w, TickStep(src, pids, settings, rules, states, applying, order))
  {
    BuiltGraphIsForest(src, pids);
    BuiltGraphFits(src, pids, w.engine.desk);
    Provenance.PlansFitTheEngine(Graph(src, pids), settings, rules, states);
  }

  /** So a whole tick, whatever fails in it, leaves every live window untouched or covered by its snapshot. */
  lemma TickKeepsEverythingUndoable(w: UndoRuns.World, src: Source, pids: set<Pid>, settings: Settings, rules: Rules,
                                    states: States, applying: bool, cleanup: bool, order: seq<Snapshot>)
    requires UndoRuns.Invariant(w) && src.windows == w.engine.desk.windows && Sane(src)
    requires OrderFits(w.engine, src, pids, settings, rules, states, order)
    requires QuietTick(Cleaned(w.engine, src, pids, cleanup), TickStep(src, pids, settings, rules, states, applying, order))
    ensures var e' := EngineAfter(w.engine, src, pids, settings, rules, states, applying, cleanup, order);
            var plan := PlanFor(src, pids, settings, rules, states);
            UndoRuns.Invariant(if Idle(w.engine, pids) then w else UndoRuns.Moved(w, e', Undo.Resizing(w.shadow, plan)))
  {
    if !Idle(w.engine, pids) {
      var w1 := w.(engine := Cleaned(w.engine, src, pids, cleanup));
      var step := TickStep(src, pids, settings, rules, states, applying, order);
      TickIsAllowed(w1, src, pids, settings, rules, states, applying, order);
      UndoRuns.StepKeepsInvariant(w1, step);
    }
  }

  // ---------------------------------------------------------------- no tick undoes its own work

  /** Whoever still is this window is as it was. */
  predicate Spared(d: Desk, d': Desk, id: WindowIdentity) {
    d'.Matches(id) ==> d.Matches(id) && d'.windows[id.hwnd] == d.windows[id.hwnd]
  }

  lemma LookSpares(d: Desk, h: Hwnd, id: WindowIdentity)
    requires Undo.FreshAt(d.fate.appears(d.looks), {id})
    ensures Spared(d, d.Looked(h), id)
  {
  }

  lemma SizeSpares(d: Desk, target: Hwnd, x: int, y: int, width: int, height: int, noMove: bool, id: WindowIdentity)
    requires id.hwnd != target
    ensures Spared(d, d.SetWindowPos(target, x, y, width, height, noMove).0, id)
  {
  }

  lemma ShowSpares(d: Desk, target: Hwnd, show: bool, id: WindowIdentity)
    requires id.hwnd != target
    ensures Spared(d, d.ShowWindow(target, show).0, id)
  {
  }

  lemma RestoreSpares(d: Desk, snap: Snapshot, id: WindowIdentity)
    requires id.hwnd != snap.identity.hwnd
    ensures Spared(d, RestoreSnapshot(d, snap).0, id)
  {
    var target := snap.identity.hwnd;
    if target !in d.hung {
      if Resizable(snap.rect) {
        var r := snap.rect.value;
        SizeSpares(d, target, r.left, r.top, r.Width(), r.Height(), !snap.topLevel, id);
        ShowSpares(d.SetWindowPos(target, r.left, r.top, r.Width(), r.Height(), !snap.topLevel).0, target, true, id);
      } else {
        ShowSpares(d, target, true, id);
      }
    }
  }

  /** A restore of another window that is not under this handle, or of one that is gone. */
  lemma OtherRestoreSpares(d: Desk, snap: Snapshot, id: WindowIdentity)
    requires snap.identity != id && d.Matches(snap.identity)
    ensures Spared(d, RestoreSnapshot(d, snap).0, id)
  {
    if snap.identity.hwnd == id.hwnd {
      UndoRuns.RestoreSnapshotShape(d, snap);
    } else {
      RestoreSpares(d, snap, id);
    }
  }

  lemma VisitSparesMatched(e: EngineState, matched: set<WindowIdentity>, visited: WindowIdentity, id: WindowIdentity)
    requires Keyed(e.snapshots) && id in matched
    requires Undo.Fresh(e.desk.fate, e.desk.looks, StaleVisit(e, matched, visited).desk.looks, {id})
    ensures Keyed(StaleVisit(e, matched, visited).snapshots) && Spared(e.desk, StaleVisit(e, matched, visited).desk, id)
  {
    UndoRuns.VisitFollows(e, matched, visited);
    var e' := StaleVisit(e, matched, visited);
    if e'.desk != e.desk {
      assert e.snapshots[visited].identity == visited;
      var d := e.desk.Looked(visited.hwnd);
      LookSpares(e.desk, visited.hwnd, id);
      if d.Matches(visited) {
        OtherRestoreSpares(d, e.snapshots[visited], id);
      }
    }
  }

  lemma {:induction false} PassSparesMatched(e: EngineState, matched: set<WindowIdentity>, pending: seq<WindowIdentity>, id: WindowIdentity)
    requires Keyed(e.snapshots) && id in matched
    requires Undo.Fresh(e.desk.fate, e.desk.looks, StalePass(e, matched, pending).desk.looks, {id})
    ensures Spared(e.desk, StalePass(e, matched, pending).desk, id)
    decreases pending
  {
    if pending != [] {
      var e1 := StaleVisit(e, matched, pending[0]);
      UndoRuns.VisitFollows(e, matched, pending[0]);
      UndoRuns.StaleFollows(e1, matched, pending[1..]);
      VisitSparesMatched(e, matched, pending[0], id);
      PassSparesMatched(e1, matched, pending[1..], id);
    }
  }

  /** A window the plan hides, zero-sizes or closes is not brought back by the same tick, whatever else is. */
  lemma PlannedWindowsStaySuppressed(s: Held, stale: map<WindowIdentity, StaleState>, g: WindowGraph, pids: set<Pid>, plan: Plan,
                                     order: seq<Snapshot>, h: Hwnd)
    requires Keyed(s.snapshots) && h in g.nodes
    requires h in plan.hide || h in plan.close || exists p :: p in plan.setPos && p.hwnd == h && !p.ViewResize()
    requires var s' := ApplyPlan(s, g, pids, plan);
             var e' := StalePass(EngineState(s'.desk, s'.snapshots, stale), MatchedIdentities(g, plan), IdentitySeq(order));
             Undo.Fresh(s'.desk.fate, s'.desk.looks, e'.desk.looks, {g.nodes[h].Identity()})
    ensures var s' := ApplyPlan(s, g, pids, plan);
            var e' := StalePass(EngineState(s'.desk, s'.snapshots, stale), MatchedIdentities(g, plan), IdentitySeq(order));
            Spared(s'.desk, e'.desk, g.nodes[h].Identity())
  {
    ApplyKeepsKeyed(s, g, pids, plan);
    var s' := ApplyPlan(s, g, pids, plan);
    assert g.nodes[h].Identity() in MatchedIdentities(g, plan);
    PassSparesMatched(EngineState(s'.desk, s'.snapshots, stale), MatchedIdentities(g, plan), IdentitySeq(order), g.nodes[h].Identity());
  }
}

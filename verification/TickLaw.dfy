/** What one tick leaves behind: which held windows it brings back, which bookkeeping it forgets, and that a
    dry one touches nothing. */
module TickLaw {
  import opened Model
  import opened Desktop
  import opened Engine
  import opened Signals
  import opened Evaluate
  import opened GraphBuild
  import opened BuiltGraph
  import opened Backoff
  import opened Ticking
  import UndoRuns

  /** The plan hides, closes or empties a window under this identity; giving a view its size is none of these. */
  predicate Wanted(g: WindowGraph, plan: Plan, id: WindowIdentity) {
    exists h | h in g.nodes && g.nodes[h].Identity() == id ::
      h in plan.hide || h in plan.close || exists p | p in plan.setPos :: p.hwnd == h && (p.width <= 0 || p.height <= 0)
  }

  lemma WantedIsMatched(g: WindowGraph, plan: Plan, id: WindowIdentity)
    ensures id in MatchedIdentities(g, plan) <==> Wanted(g, plan, id)
  {
  }

  /** The state between applying the plan and looking after the stale windows. */
  function Applied(e: EngineState, src: Source, pids: set<Pid>, plan: Plan, cleanup: bool): EngineState {
    var s := ApplyPlan(Held(e.desk, e.snapshots), Graph(src, pids), pids, plan);
    EngineState(s.desk, s.snapshots, Cleaned(e, src, pids, cleanup).stale)
  }

  /** A tick brings back a held window that is due and that its plan does not want suppressed, even when there
      are no processes left to watch, whatever else it does. */
  lemma UnwantedWindowsComeBack(e: EngineState, src: Source, pids: set<Pid>, settings: Settings, rules: Rules, states: States,
                                cleanup: bool, order: seq<Snapshot>, id: WindowIdentity)
    requires id in e.snapshots && OrderFits(e, src, pids, settings, rules, states, order)
    requires var plan := PlanFor(src, pids, settings, rules, states);
             var e1 := Applied(e, src, pids, plan, cleanup);
             !Wanted(Graph(src, pids), plan, id) && Restorable(e1, id) && CountMiss(StateAt(e1, id)).1
    ensures var e1 := Applied(e, src, pids, PlanFor(src, pids, settings, rules, states), cleanup);
            var e' := EngineAfter(e, src, pids, settings, rules, states, true, cleanup, order);
            && id !in e'.snapshots && id !in e'.stale && id.hwnd in e'.desk.windows
            && e'.desk.windows[id.hwnd] == UndoRuns.Restored(e1.desk.windows[id.hwnd], e1.snapshots[id])
  {
    var g, plan := Graph(src, pids), PlanFor(src, pids, settings, rules, states);
    var e1 := Applied(e, src, pids, plan, cleanup);
    WantedIsMatched(g, plan, id);
    OrderListsOnce(order, e1.snapshots, id);
    DueWindowIsRestored(e1, MatchedIdentities(g, plan), IdentitySeq(order), id);
  }

  /** Without permission to apply, or with nothing to watch and nothing held, a tick touches no window and no snapshot. */
  lemma DryTickTouchesNothing(e: EngineState, src: Source, pids: set<Pid>, settings: Settings, rules: Rules, states: States,
                              applying: bool, cleanup: bool, order: seq<Snapshot>)
    requires !applying || (pids == {} && e.snapshots == map[])
    ensures var e' := EngineAfter(e, src, pids, settings, rules, states, applying, cleanup, order);
            e'.desk == e.desk && e'.snapshots == e.snapshots
  {
  }

  /** The tick has read this window. */
  predicate Present(g: WindowGraph, id: WindowIdentity) {
    id.hwnd in g.nodes && g.nodes[id.hwnd].pid == id.pid && g.nodes[id.hwnd].className == id.className
  }

  lemma PresentIsLive(src: Source, pids: set<Pid>, id: WindowIdentity)
    ensures id in LiveIdentities(Graph(src, pids)) <==> Present(Graph(src, pids), id)
  {
    var g := Graph(src, pids);
    if id in LiveIdentities(g) {
      var h :| h in g.nodes && g.nodes[h].Identity() == id;
      assert g.nodes[h].hwnd == h;
    }
    if Present(g, id) {
      assert g.nodes[id.hwnd].hwnd == id.hwnd && g.nodes[id.hwnd].Identity() == id;
    }
  }

  /** A clean-up forgets the streaks and the restore bookkeeping of exactly those windows that are neither
      present nor held, and without one nothing is forgotten; whatever stays is unchanged. */
  lemma CleanupForgetsTheGone(e: EngineState, src: Source, pids: set<Pid>, settings: Settings, rules: Rules, states: States,
                              cleanup: bool, id: WindowIdentity)
    ensures var g := Graph(src, pids);
            var stays := !cleanup || Present(g, id) || id in e.snapshots;
            var judged, after := Apply(g, settings, rules, states).store.states, StatesAfter(states, e.snapshots, src, pids, settings, rules, cleanup);
            var cleaned := Cleaned(e, src, pids, cleanup);
            && (id in after <==> id in judged && stays) && (id in after ==> after[id] == judged[id])
            && (id in cleaned.stale <==> id in e.stale && stays) && (id in cleaned.stale ==> cleaned.stale[id] == e.stale[id])
            && cleaned.desk == e.desk && cleaned.snapshots == e.snapshots
  {
    PresentIsLive(src, pids, id);
  }
}

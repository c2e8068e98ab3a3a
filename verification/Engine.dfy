/** The suppress/restore engine. The functions say what one pass does to a `Held` state (desktop and
    snapshots) or an `EngineState` (with the retry bookkeeping); `EngineCaches` is the worker-owned
    object whose methods do it in place. */
module Engine {
  import opened Model
  import opened Arithmetic
  import opened Desktop

  const RESTORE_MISS_THRESHOLD: nat := 2
  const RESTORE_MAX_ATTEMPTS: nat := 5
  const RESTORE_GIVEUP_COOLDOWN_TICKS: nat := 300

  datatype Snapshot = Snapshot(identity: WindowIdentity, wasVisible: bool, rect: Option<Rect>, topLevel: bool)

  type Snapshots = map<WindowIdentity, Snapshot>

  datatype StaleState = StaleState(missStreak: nat, attempts: nat, cooldown: nat, warned: bool)

  const FRESH := StaleState(0, 0, 0, false)

  datatype Held = Held(desk: Desk, snapshots: Snapshots)

  datatype EngineState = EngineState(desk: Desk, snapshots: Snapshots, stale: map<WindowIdentity, StaleState>)

  // ---------------------------------------------------------------- suppressing

  function CaptureSnapshot(d: Desk, node: WindowNode): Snapshot {
    var live := d.GetWindowRect(node.hwnd);
    Snapshot(node.Identity(), d.HasVisibleStyle(node.hwnd),
             if live.Some? then live else node.rect, node.structuralParent.None?)
  }

  /** Keep the first snapshot of a window. */
  function Remember(s: Held, graph: WindowGraph, h: Hwnd): Held {
    if h !in graph.nodes || graph.nodes[h].Identity() in s.snapshots then s
    else s.(snapshots := s.snapshots[graph.nodes[h].Identity() := CaptureSnapshot(s.desk, graph.nodes[h])])
  }

  /** May this window be touched now? */
  predicate Verdict(d: Desk, graph: WindowGraph, pids: set<Pid>, h: Hwnd) {
    && d.live
    && h in graph.nodes
    && graph.nodes[h].pid in pids
    && d.Matches(graph.nodes[h].Identity())
    && h !in d.hung
  }

  function CapturePass(s: Held, graph: WindowGraph, pids: set<Pid>, targets: seq<Hwnd>): Held
    decreases targets
  {
    if targets == [] then s
    else
      var s1 := s.(desk := s.desk.Looked(targets[0]));
      CapturePass(if Verdict(s1.desk, graph, pids, targets[0]) then Remember(s1, graph, targets[0]) else s1,
                  graph, pids, targets[1..])
  }

  function HideOne(d: Desk, graph: WindowGraph, pids: set<Pid>, h: Hwnd): Desk {
    var d1 := d.Looked(h);
    if Verdict(d1, graph, pids, h) && d1.HasVisibleStyle(h) then d1.ShowWindow(h, false).0 else d1
  }

  function HidePass(d: Desk, graph: WindowGraph, pids: set<Pid>, hides: seq<Hwnd>): Desk
    decreases hides
  {
    if hides == [] then d else HidePass(HideOne(d, graph, pids, hides[0]), graph, pids, hides[1..])
  }

  predicate AlreadyEmpty(node: WindowNode) {
    node.rect.Some? && node.rect.value.Width() == 0 && node.rect.value.Height() == 0
  }

  function PosOne(s: Held, graph: WindowGraph, pids: set<Pid>, p: Pos): Held {
    var s1 := s.(desk := s.desk.Looked(p.hwnd));
    if !Verdict(s1.desk, graph, pids, p.hwnd) then s1
    else if !p.ViewResize() && AlreadyEmpty(graph.nodes[p.hwnd]) then s1
    else
      var s2 := if p.ViewResize() then s1 else Remember(s1, graph, p.hwnd);
      var noMove := p.ViewResize() || graph.nodes[p.hwnd].structuralParent.Some?;
      s2.(desk := s2.desk.SetWindowPos(p.hwnd, p.x, p.y, p.width, p.height, noMove).0)
  }

  function PosPass(s: Held, graph: WindowGraph, pids: set<Pid>, places: seq<Pos>): Held
    decreases places
  {
    if places == [] then s else PosPass(PosOne(s, graph, pids, places[0]), graph, pids, places[1..])
  }

  /** Close requests stop at the shared deadline. */
  function ClosePass(d: Desk, graph: WindowGraph, pids: set<Pid>, closes: seq<Hwnd>): Desk
    decreases closes
  {
    if closes == [] then d
    else
      var d1 := d.Looked(closes[0]);
      if !Verdict(d1, graph, pids, closes[0]) then ClosePass(d1, graph, pids, closes[1..])
      else if d1.fate.late(d1.clock) then d1
      else ClosePass(d1.SendClose(closes[0]), graph, pids, closes[1..])
  }

  /** The targets of the zero-size entries. */
  function ShrinkTargets(places: seq<Pos>): seq<Hwnd> {
    if places == [] then []
    else (if places[0].ViewResize() then [] else [places[0].hwnd]) + ShrinkTargets(places[1..])
  }

  function Retained(d: Desk, snapshots: Snapshots): Snapshots {
    map id | id in snapshots && d.Matches(id) :: snapshots[id]
  }

  function ApplyPlan(s: Held, graph: WindowGraph, pids: set<Pid>, plan: Plan): Held {
    if !s.desk.live then s
    else
      var s1 := CapturePass(s, graph, pids, plan.hide + ShrinkTargets(plan.setPos));
      var s2 := s1.(desk := HidePass(s1.desk, graph, pids, plan.hide));
      var s3 := PosPass(s2, graph, pids, plan.setPos);
      var d := ClosePass(s3.desk, graph, pids, plan.close);
      Held(d, if plan.close == [] then s3.snapshots else Retained(d, s3.snapshots))
  }

  // ---------------------------------------------------------------- restoring

  predicate Resizable(rect: Option<Rect>) {
    rect.Some? && rect.value.Width() > 0 && rect.value.Height() > 0
  }

  function RestoreSnapshot(d: Desk, snap: Snapshot): (Desk, bool) {
    var h := snap.identity.hwnd;
    if h in d.hung then (d, false)
    else
      var (d1, placed) :=
        if Resizable(snap.rect)
        then var r := snap.rect.value; d.SetWindowPos(h, r.left, r.top, r.Width(), r.Height(), !snap.topLevel)
        else (d, true);
      if snap.wasVisible
      then var d2 := d1.ShowWindow(h, true).0; (d2, placed && d2.HasVisibleStyle(h))
      else (d1, placed)
  }

  /** One pending restore: dropped when the window is gone, reinserted when it fails. */
  function RestoreOne(s: Held, snap: Snapshot): (Held, bool) {
    var d := s.desk.Looked(snap.identity.hwnd);
    if !d.Matches(snap.identity) then (s.(desk := d), true)
    else
      var (d1, ok) := RestoreSnapshot(d, snap);
      (Held(d1, if ok then s.snapshots else s.snapshots[snap.identity := snap]), ok)
  }

  function RestorePending(s: Held, failures: nat, pending: seq<Snapshot>): (Held, nat)
    decreases pending
  {
    if pending == [] then (s, failures)
    else
      var (s1, ok) := RestoreOne(s, pending[0]);
      RestorePending(s1, if ok then failures else failures + 1, pending[1..])
  }

  function Drain(s: Held, order: seq<Snapshot>): (Held, nat) {
    RestorePending(Held(s.desk, map[]), 0, order)
  }

  /** Sort key of a pending restore: previously failing last, top-level first, then by handle. */
  datatype SortKey = SortKey(failed: bool, child: bool, hwnd: Hwnd)

  function KeyOf(snap: Snapshot, stale: map<WindowIdentity, StaleState>): SortKey {
    SortKey(snap.identity in stale && stale[snap.identity].attempts > 0, !snap.topLevel, snap.identity.hwnd)
  }

  predicate KeyLeq(a: SortKey, b: SortKey) {
    if a.failed != b.failed then b.failed
    else if a.child != b.child then b.child
    else a.hwnd <= b.hwnd
  }

  predicate Keyed(snapshots: Snapshots) {
    forall id | id in snapshots :: snapshots[id].identity == id
  }

  predicate Distinct(order: seq<Snapshot>) {
    forall i, j | 0 <= i < j < |order| :: order[i].identity != order[j].identity
  }

  predicate Sorted(order: seq<Snapshot>, stale: map<WindowIdentity, StaleState>) {
    forall i, j | 0 <= i < j < |order| :: KeyLeq(KeyOf(order[i], stale), KeyOf(order[j], stale))
  }

  function Identities(order: seq<Snapshot>): set<WindowIdentity> { set s | s in order :: s.identity }

  /** `order` lists each snapshot exactly once, in key order. */
  predicate IsOrder(order: seq<Snapshot>, snapshots: Snapshots, stale: map<WindowIdentity, StaleState>) {
    && (forall s | s in order :: s.identity in snapshots && snapshots[s.identity] == s)
    && Identities(order) == snapshots.Keys
    && Distinct(order)
    && Sorted(order, stale)
  }

  // ---------------------------------------------------------------- stale windows

  function RetryCooldownTicks(attempts: nat): nat {
    if attempts >= RESTORE_MAX_ATTEMPTS then RESTORE_GIVEUP_COOLDOWN_TICKS
    else Pow2(if attempts == 0 then 0 else Min(attempts - 1, 4))
  }

  /** Count one unmatched tick; the second component says whether a restore is due. */
  function CountMiss(st: StaleState): (StaleState, bool) {
    var st1 := st.(missStreak := SaturatingInc(st.missStreak));
    if st1.missStreak < RESTORE_MISS_THRESHOLD then (st1, false)
    else if st1.cooldown > 0 then (st1.(cooldown := st1.cooldown - 1), false)
    else (st1, true)
  }

  function CountFailure(st: StaleState): StaleState {
    var attempts := SaturatingInc(st.attempts);
    StaleState(st.missStreak, attempts, RetryCooldownTicks(attempts), true)
  }

  function Without<K, V>(m: map<K, V>, k: K): map<K, V> { m - {k} }

  function StaleVisit(e: EngineState, matched: set<WindowIdentity>, id: WindowIdentity): EngineState {
    if id in matched then e.(stale := Without(e.stale, id))
    else
      var (st, due) := CountMiss(if id in e.stale then e.stale[id] else FRESH);
      var e1 := e.(stale := e.stale[id := st]);
      if !due then e1
      else if id !in e1.snapshots then e1.(stale := Without(e1.stale, id))
      else
        var snap := e1.snapshots[id];
        var d := e1.desk.Looked(snap.identity.hwnd);
        if !d.Matches(snap.identity) then
          EngineState(d, Without(e1.snapshots, id), Without(e1.stale, id))
        else
          var (d1, ok) := RestoreSnapshot(d, snap);
          if ok then EngineState(d1, Without(e1.snapshots, id), Without(e1.stale, id))
          else EngineState(d1, e1.snapshots, e1.stale[id := CountFailure(st)])
  }

  function StalePass(e: EngineState, matched: set<WindowIdentity>, pending: seq<WindowIdentity>): EngineState
    decreases pending
  {
    if pending == [] then e else StalePass(StaleVisit(e, matched, pending[0]), matched, pending[1..])
  }

  function IdentitySeq(order: seq<Snapshot>): seq<WindowIdentity> {
    seq(|order|, i requires 0 <= i < |order| => order[i].identity)
  }

  function FailureCount(stale: map<WindowIdentity, StaleState>): nat {
    |set id | id in stale && stale[id].attempts > 0|
  }

  function ClearedFailures(stale: map<WindowIdentity, StaleState>): map<WindowIdentity, StaleState> {
    map id | id in stale :: StaleState(stale[id].missStreak, 0, 0, false)
  }

  function KeptStale(stale: map<WindowIdentity, StaleState>, snapshots: Snapshots): map<WindowIdentity, StaleState> {
    map id | id in stale && id in snapshots :: stale[id]
  }

  /** Bookkeeping of windows neither present nor held is dropped. */
  function PrunedStale(stale: map<WindowIdentity, StaleState>, snapshots: Snapshots, present: set<WindowIdentity>): map<WindowIdentity, StaleState> {
    map id | id in stale && (id in present || id in snapshots) :: stale[id]
  }

  // ---------------------------------------------------------------- the worker-owned caches

  class EngineCaches {
    var snapshots: Snapshots
    var stale: map<WindowIdentity, StaleState>

    constructor ()
      ensures snapshots == map[] && stale == map[]
    {
      snapshots, stale := map[], map[];
    }

    function Holding(api: Desktop): Held
      reads this, api
    {
      Held(api.State(), snapshots)
    }

    function State(api: Desktop): EngineState
      reads this, api
    {
      EngineState(api.State(), snapshots, stale)
    }

    method RememberSnapshot(api: Desktop, graph: WindowGraph, h: Hwnd)
      modifies this`snapshots
      ensures Holding(api) == Remember(old(Holding(api)), graph, h)
    {
      if h in graph.nodes && graph.nodes[h].Identity() !in snapshots {
        var snap := CaptureSnapshot(api.State(), graph.nodes[h]);
        snapshots := snapshots[snap.identity := snap];
      }
    }

    method ApplyEvaluation(api: Desktop, graph: WindowGraph, pids: set<Pid>, plan: Plan)
      modifies this`snapshots, api
      ensures Holding(api) == ApplyPlan(old(Holding(api)), graph, pids, plan)
    {
      if !api.live {
        return;
      }
      CaptureTargets(api, graph, pids, plan.hide + ShrinkTargets(plan.setPos));
      HideTargets(api, graph, pids, plan.hide);
      PlaceTargets(api, graph, pids, plan.setPos);
      CloseTargets(api, graph, pids, plan.close);
      if plan.close != [] {
        snapshots := Retained(api.State(), snapshots);
      }
    }

    method CaptureTargets(api: Desktop, graph: WindowGraph, pids: set<Pid>, targets: seq<Hwnd>)
      modifies this`snapshots, api
      ensures Holding(api) == CapturePass(old(Holding(api)), graph, pids, targets)
    {
      var i := 0;
      while i < |targets|
        invariant 0 <= i <= |targets|
        invariant CapturePass(Holding(api), graph, pids, targets[i..]) == CapturePass(old(Holding(api)), graph, pids, targets)
      {
        assert targets[i..][1..] == targets[i + 1..];
        api.Check(targets[i]);
        if Verdict(api.State(), graph, pids, targets[i]) {
          RememberSnapshot(api, graph, targets[i]);
        }
        i := i + 1;
      }
    }

    method HideTargets(api: Desktop, graph: WindowGraph, pids: set<Pid>, hides: seq<Hwnd>)
      modifies api
      ensures api.State() == HidePass(old(api.State()), graph, pids, hides)
    {
      var i := 0;
      while i < |hides|
        invariant 0 <= i <= |hides|
        invariant HidePass(api.State(), graph, pids, hides[i..]) == HidePass(old(api.State()), graph, pids, hides)
      {
        assert hides[i..][1..] == hides[i + 1..];
        api.Check(hides[i]);
        if Verdict(api.State(), graph, pids, hides[i]) && api.State().HasVisibleStyle(hides[i]) {
          var _ := api.ShowWindow(hides[i], false);
        }
        i := i + 1;
      }
    }

    method PlaceTargets(api: Desktop, graph: WindowGraph, pids: set<Pid>, places: seq<Pos>)
      modifies this`snapshots, api
      ensures Holding(api) == PosPass(old(Holding(api)), graph, pids, places)
    {
      var i := 0;
      while i < |places|
        invariant 0 <= i <= |places|
        invariant PosPass(Holding(api), graph, pids, places[i..]) == PosPass(old(Holding(api)), graph, pids, places)
      {
        assert places[i..][1..] == places[i + 1..];
        PlaceTarget(api, graph, pids, places[i]);
        i := i + 1;
      }
    }

    method PlaceTarget(api: Desktop, graph: WindowGraph, pids: set<Pid>, p: Pos)
      modifies this`snapshots, api
      ensures Holding(api) == PosOne(old(Holding(api)), graph, pids, p)
    {
      api.Check(p.hwnd);
      if !Verdict(api.State(), graph, pids, p.hwnd) {
        return;
      }
      var node := graph.nodes[p.hwnd];
      if !p.ViewResize() {
        if AlreadyEmpty(node) {
          return;
        }
        RememberSnapshot(api, graph, p.hwnd);
      }
      var noMove := p.ViewResize() || node.structuralParent.Some?;
      var _ := api.SetWindowPos(p.hwnd, p.x, p.y, p.width, p.height, noMove);
    }

    method CloseTargets(api: Desktop, graph: WindowGraph, pids: set<Pid>, closes: seq<Hwnd>)
      modifies api
      ensures api.State() == ClosePass(old(api.State()), graph, pids, closes)
    {
      var i := 0;
      while i < |closes|
        invariant 0 <= i <= |closes|
        invariant ClosePass(api.State(), graph, pids, closes[i..]) == ClosePass(old(api.State()), graph, pids, closes)
      {
        assert closes[i..][1..] == closes[i + 1..];
        api.Check(closes[i]);
        if Verdict(api.State(), graph, pids, closes[i]) {
          if api.fate.late(api.clock) {
            return;
          }
          api.SendClose(closes[i]);
        }
        i := i + 1;
      }
    }

    method RestoreWindow(api: Desktop, snap: Snapshot) returns (ok: bool)
      modifies api
      ensures (api.State(), ok) == RestoreSnapshot(old(api.State()), snap)
    {
      var h := snap.identity.hwnd;
      if h in api.hung {
        return false;
      }
      ok := true;
      if Resizable(snap.rect) {
        var r := snap.rect.value;
        ok := api.SetWindowPos(h, r.left, r.top, r.Width(), r.Height(), !snap.topLevel);
      }
      if snap.wasVisible {
        var _ := api.ShowWindow(h, true);
        if !api.State().HasVisibleStyle(h) {
          ok := false;
        }
      }
    }

    method RestoreAllPending(api: Desktop, pending: seq<Snapshot>) returns (failures: nat)
      modifies this`snapshots, api
      ensures (Holding(api), failures) == RestorePending(old(Holding(api)), 0, pending)
    {
      failures := 0;
      var i := 0;
      while i < |pending|
        invariant 0 <= i <= |pending|
        invariant RestorePending(Holding(api), failures, pending[i..]) == RestorePending(old(Holding(api)), 0, pending)
      {
        assert pending[i..][1..] == pending[i + 1..];
        api.Check(pending[i].identity.hwnd);
        if api.State().Matches(pending[i].identity) {
          var ok := RestoreWindow(api, pending[i]);
          if !ok {
            failures := failures + 1;
            snapshots := snapshots[pending[i].identity := pending[i]];
          }
        }
        i := i + 1;
      }
    }

    /** Restore everything and drop the bookkeeping of whatever came back. */
    method DrainRestoreAll(api: Desktop) returns (failures: nat, ghost order: seq<Snapshot>)
      requires Keyed(snapshots)
      modifies this, api
      ensures IsOrder(order, old(snapshots), map[])
      ensures (Holding(api), failures) == Drain(old(Holding(api)), order)
      ensures stale == KeptStale(old(stale), snapshots)
    {
      var pending := SortedSnapshots(snapshots, map[]);
      snapshots := map[];
      failures := RestoreAllPending(api, pending);
      stale := KeptStale(stale, snapshots);
      order := pending;
    }

    /** Shutdown variant: windows that already failed a restore go last. */
    method DrainRestoreAllFinal(api: Desktop) returns (failures: nat, ghost order: seq<Snapshot>)
      requires Keyed(snapshots)
      modifies this, api
      ensures IsOrder(order, old(snapshots), old(stale))
      ensures (Holding(api), failures) == Drain(old(Holding(api)), order)
      ensures stale == KeptStale(old(stale), snapshots)
    {
      var pending := SortedSnapshots(snapshots, stale);
      snapshots := map[];
      failures := RestoreAllPending(api, pending);
      stale := KeptStale(stale, snapshots);
      order := pending;
    }

    /** Restore windows that no longer look like advertisements, backing off on failure. */
    method RestoreStaleHidden(api: Desktop, matched: set<WindowIdentity>)
      returns (failures: nat, ghost order: seq<Snapshot>)
      requires Keyed(snapshots)
      modifies this, api
      ensures IsOrder(order, old(snapshots), map[])
      ensures State(api) == StalePass(old(State(api)), matched, IdentitySeq(order))
      ensures failures == FailureCount(stale)
    {
      var sorted := SortedSnapshots(snapshots, map[]);
      var pending := IdentitySeq(sorted);
      var i := 0;
      while i < |pending|
        invariant 0 <= i <= |pending|
        invariant StalePass(State(api), matched, pending[i..]) == StalePass(old(State(api)), matched, pending)
      {
        assert pending[i..][1..] == pending[i + 1..];
        VisitStale(api, matched, pending[i]);
        i := i + 1;
      }
      order := sorted;
      failures := |set id | id in stale && stale[id].attempts > 0|;
    }

    method VisitStale(api: Desktop, matched: set<WindowIdentity>, id: WindowIdentity)
      modifies this, api
      ensures State(api) == StaleVisit(old(State(api)), matched, id)
    {
      if id in matched {
        stale := Without(stale, id);
        return;
      }
      var (st, due) := CountMiss(if id in stale then stale[id] else FRESH);
      stale := stale[id := st];
      if !due {
        return;
      }
      if id !in snapshots {
        stale := Without(stale, id);
        return;
      }
      var snap := snapshots[id];
      snapshots := Without(snapshots, id);
      api.Check(snap.identity.hwnd);
      if !api.State().Matches(snap.identity) {
        stale := Without(stale, id);
        return;
      }
      var ok := RestoreWindow(api, snap);
      if ok {
        stale := Without(stale, id);
        return;
      }
      snapshots := snapshots[id := snap];
      assert snapshots == old(snapshots);
      stale := stale[id := CountFailure(st)];
    }

    method ClearRestoreFailures()
      modifies this`stale
      ensures stale == ClearedFailures(old(stale))
    {
      stale := map id | id in stale :: StaleState(stale[id].missStreak, 0, 0, false);
    }

    method PruneStale(present: set<WindowIdentity>)
      modifies this`stale
      ensures stale == PrunedStale(old(stale), snapshots, present)
    {
      stale := map id | id in stale && (id in present || id in snapshots) :: stale[id];
    }

    method ClearTransient()
      modifies this`stale
      ensures stale == map[]
    {
      stale := map[];
    }
  }

  /** Insertion sort of the snapshots by restore key. */
  method SortedSnapshots(snapshots: Snapshots, stale: map<WindowIdentity, StaleState>) returns (order: seq<Snapshot>)
    requires Keyed(snapshots)
    ensures IsOrder(order, snapshots, stale)
  {
    order := [];
    var todo := snapshots.Keys;
    while todo != {}
      invariant todo <= snapshots.Keys
      invariant forall s | s in order :: s.identity in snapshots && snapshots[s.identity] == s
      invariant Identities(order) == snapshots.Keys - todo
      invariant Distinct(order) && Sorted(order, stale)
      decreases todo
    {
      var id :| id in todo;
      todo := todo - {id};
      assert id !in Identities(order);
      ghost var before := order;
      order := InsertSorted(order, snapshots[id], stale);
      assert Identities(order) == Identities(before) + {id};
    }
  }

  method InsertSorted(order: seq<Snapshot>, snap: Snapshot, stale: map<WindowIdentity, StaleState>)
    returns (r: seq<Snapshot>)
    requires Distinct(order) && Sorted(order, stale)
    requires snap.identity !in Identities(order)
    ensures Distinct(r) && Sorted(r, stale)
    ensures forall s :: s in r <==> s == snap || s in order
  {
    var i := 0;
    while i < |order| && KeyLeq(KeyOf(order[i], stale), KeyOf(snap, stale))
      invariant 0 <= i <= |order|
      invariant forall j | 0 <= j < i :: KeyLeq(KeyOf(order[j], stale), KeyOf(snap, stale))
    {
      i := i + 1;
    }
    forall j | 0 <= j < |order| ensures order[j].identity != snap.identity {
      assert order[j] in order;
    }
    r := order[..i] + [snap] + order[i..];
  }
}

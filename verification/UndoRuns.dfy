/** Restoring, and whole runs: the invariant of `Undo` survives every step, and a drain that reports
    no failure leaves the desktop exactly as if the engine had never run. */
module UndoRuns {
  import opened Model
  import opened Desktop
  import opened Engine
  import opened Undo

  function AsMap(order: seq<Snapshot>): Snapshots {
    if order == [] then map[] else AsMap(order[1..])[order[0].identity := order[0]]
  }

  lemma {:induction false} AsMapKeys(order: seq<Snapshot>)
    ensures AsMap(order).Keys == Identities(order)
    ensures Distinct(order) ==> forall s | s in order :: s.identity in AsMap(order) && AsMap(order)[s.identity] == s
  {
    if order != [] {
      AsMapKeys(order[1..]);
      assert order == [order[0]] + order[1..];
      if Distinct(order) {
        FirstIsDistinct(order);
      }
    }
  }

  /** The geometry a restore asks for. */
  function Regrown(now: WindowRec, snap: Snapshot): Option<Rect> {
    if Resizable(snap.rect)
    then
      var r := snap.rect.value;
      Some(Placed(now.rect, r.left, r.top, r.Width(), r.Height(), !snap.topLevel))
    else now.rect
  }

  function Restored(now: WindowRec, snap: Snapshot): WindowRec {
    now.(rect := Regrown(now, snap), visible := now.visible || snap.wasVisible)
  }

  /** A failing restore may still have done some of its work. */
  predicate PartlyRestored(now: WindowRec, now': WindowRec, snap: Snapshot) {
    && SameWindow(now, now')
    && (now'.rect == now.rect || now'.rect == Regrown(now, snap))
    && (now'.visible == now.visible || now'.visible == (now.visible || snap.wasVisible))
  }

  /** Only this window may differ. */
  ghost predicate OnlyChanges(d: Desk, d': Desk, h: Hwnd) {
    && d'.fate == d.fate && d'.looks == d.looks
    && d'.windows.Keys <= d.windows.Keys
    && forall g | g in d'.windows && g != h :: d'.windows[g] == d.windows[g]
  }

  lemma SizeShape(d: Desk, h: Hwnd, x: int, y: int, width: int, height: int, noMove: bool)
    ensures var (d', ok) := d.SetWindowPos(h, x, y, width, height, noMove);
            && OnlyChanges(d, d', h)
            && (h in d'.windows && !ok ==> d'.windows[h] == d.windows[h])
            && (h in d'.windows && ok ==> d'.windows[h] == d.windows[h].(rect := Some(Placed(d.windows[h].rect, x, y, width, height, noMove))))
  {
  }

  lemma ShowShape(d: Desk, h: Hwnd)
    ensures var (d', ok) := d.ShowWindow(h, true);
            && OnlyChanges(d, d', h)
            && (h in d'.windows ==> d'.windows[h] == if ok then d.windows[h].(visible := true) else d.windows[h])
  {
  }

  lemma RestoreSnapshotShape(d: Desk, snap: Snapshot)
    requires d.Matches(snap.identity)
    ensures var (d', ok) := RestoreSnapshot(d, snap);
            var h := snap.identity.hwnd;
            && OnlyChanges(d, d', h)
            && (h in d'.windows ==> PartlyRestored(d.windows[h], d'.windows[h], snap))
            && (ok && h in d'.windows ==> d'.windows[h] == Restored(d.windows[h], snap))
  {
    var h := snap.identity.hwnd;
    if h !in d.hung {
      var r := if Resizable(snap.rect) then snap.rect.value else Rect(0, 0, 0, 0);
      var (d1, placed) :=
        if Resizable(snap.rect) then d.SetWindowPos(h, r.left, r.top, r.Width(), r.Height(), !snap.topLevel)
        else (d, true);
      SizeShape(d, h, r.left, r.top, r.Width(), r.Height(), !snap.topLevel);
      assert OnlyChanges(d, d1, h);
      assert h in d1.windows ==>
        d1.windows[h] == if placed then d.windows[h].(rect := Regrown(d.windows[h], snap)) else d.windows[h];
      ShowShape(d1, h);
    }
  }

  lemma PartlyRestoredSuppressed(now: WindowRec, now': WindowRec, o: WindowRec, snap: Snapshot, resized: bool)
    requires Suppressed(now, o, snap, resized) && PartlyRestored(now, now', snap)
    requires Regular(o.rect) && (resized ==> now.parent != 0)
    ensures Suppressed(now', o, snap, resized)
  {
  }

  lemma RestoredUntouched(now: WindowRec, o: WindowRec, snap: Snapshot, resized: bool)
    requires Suppressed(now, o, snap, resized)
    requires Regular(o.rect) && (resized ==> now.parent != 0)
    ensures Untouched(Restored(now, snap), o, resized)
  {
  }

  /** One restore keeps the invariant while the snapshot is held; a successful one makes the snapshot unnecessary. */
  lemma RestoreSnapshotSafe(d: Desk, full: Snapshots, snap: Snapshot, sh: Shadow)
    requires Safe(d.windows, full, sh)
    requires snap.identity in full && full[snap.identity] == snap && d.Matches(snap.identity)
    ensures var (d', ok) := RestoreSnapshot(d, snap);
            && d'.fate == d.fate && d'.looks == d.looks
            && Safe(d'.windows, full, sh)
            && (ok ==> Safe(d'.windows, Without(full, snap.identity), sh))
  {
    var h := snap.identity.hwnd;
    var (d', ok) := RestoreSnapshot(d, snap);
    RestoreSnapshotShape(d, snap);
    assert Sound(h, d.windows[h], sh.orig[h], full, h in sh.touched);
    RestoredUntouched(d.windows[h], sh.orig[h], snap, h in sh.touched);
    forall g | g in d'.windows
      ensures g in sh.orig && Sound(g, d'.windows[g], sh.orig[g], full, g in sh.touched)
      ensures ok ==> Sound(g, d'.windows[g], sh.orig[g], Without(full, snap.identity), g in sh.touched)
    {
      assert Sound(g, d.windows[g], sh.orig[g], full, g in sh.touched);
      if g == h {
        PartlyRestoredSuppressed(d.windows[h], d'.windows[h], sh.orig[h], snap, h in sh.touched);
      }
    }
  }

  /** A snapshot whose window is gone protects nothing. */
  lemma DropGoneSafe(d: Desk, full: Snapshots, id: WindowIdentity, sh: Shadow)
    requires Safe(d.windows, full, sh) && !d.Matches(id)
    ensures Safe(d.windows, Without(full, id), sh)
  {
    forall g | g in d.windows ensures g in sh.orig && Sound(g, d.windows[g], sh.orig[g], Without(full, id), g in sh.touched) {
      assert Sound(g, d.windows[g], sh.orig[g], full, g in sh.touched);
    }
  }

  lemma SplitFirst(kept: Snapshots, pending: seq<Snapshot>)
    requires pending != [] && Distinct(pending) && Identities(pending) !! kept.Keys
    ensures var snap, rest := pending[0], pending[1..];
            && Distinct(rest)
            && Identities(pending) == Identities(rest) + {snap.identity}
            && snap.identity !in Identities(rest)
            && (kept + AsMap(pending))[snap.identity] == snap
            && kept + AsMap(rest) == Without(kept + AsMap(pending), snap.identity)
            && kept[snap.identity := snap] + AsMap(rest) == kept + AsMap(pending)
  {
    var snap, rest := pending[0], pending[1..];
    AsMapKeys(rest);
    FirstIsDistinct(pending);
    MapSplit(kept, AsMap(rest), snap.identity, snap);
  }

  lemma FirstIsDistinct(pending: seq<Snapshot>)
    requires pending != [] && Distinct(pending)
    ensures Distinct(pending[1..])
    ensures Identities(pending) == Identities(pending[1..]) + {pending[0].identity}
    ensures pending[0].identity !in Identities(pending[1..])
  {
    var snap, rest := pending[0], pending[1..];
    assert pending == [snap] + rest;
    forall r | r in rest ensures r.identity != snap.identity {
      var i :| 0 <= i < |rest| && rest[i] == r;
      assert pending[i + 1] == r;
    }
  }

  lemma MapSplit(kept: Snapshots, rest: Snapshots, id: WindowIdentity, snap: Snapshot)
    requires id !in kept && id !in rest
    ensures kept + rest == Without(kept + rest[id := snap], id)
    ensures kept[id := snap] + rest == kept + rest[id := snap]
  {
  }

  lemma RestoreOneSafe(s: Held, snap: Snapshot, full: Snapshots, sh: Shadow)
    requires Safe(s.desk.windows, full, sh) && FreshAt(s.desk.fate.appears(s.desk.looks), full.Keys)
    requires snap.identity in full && full[snap.identity] == snap
    ensures var (s1, ok) := RestoreOne(s, snap);
            && s1.desk.fate == s.desk.fate && s1.desk.looks == s.desk.looks + 1
            && Safe(s1.desk.windows, if ok then Without(full, snap.identity) else full, sh.Past(s.desk.fate, s.desk.looks, s.desk.looks + 1))
  {
    var d, sh1 := s.desk.Looked(snap.identity.hwnd), sh.Past(s.desk.fate, s.desk.looks, s.desk.looks + 1);
    LookSafe(s.desk, snap.identity.hwnd, full, sh);
    if d.Matches(snap.identity) {
      RestoreSnapshotSafe(d, full, snap, sh1);
    } else {
      DropGoneSafe(d, full, snap.identity, sh1);
    }
  }

  lemma RestoreOneFollows(s: Held, snap: Snapshot)
    ensures var d := RestoreOne(s, snap).0.desk; d.fate == s.desk.fate && d.looks == s.desk.looks + 1
  {
  }

  lemma {:induction false} RestoresFollow(s: Held, failures: nat, pending: seq<Snapshot>)
    ensures var d := RestorePending(s, failures, pending).0.desk;
            d.fate == s.desk.fate && d.looks == s.desk.looks + |pending|
    decreases pending
  {
    if pending != [] {
      RestoreOneFollows(s, pending[0]);
      var (s1, ok) := RestoreOne(s, pending[0]);
      RestoresFollow(s1, if ok then failures else failures + 1, pending[1..]);
    }
  }

  /** Held during a drain: what is kept already and what is still to try. */
  function Full(s: Held, pending: seq<Snapshot>): Snapshots { s.snapshots + AsMap(pending) }

  lemma FreshSplits(fate: Fate, lo: nat, hi: nat, ids: set<WindowIdentity>, fewer: set<WindowIdentity>)
    requires lo < hi && Fresh(fate, lo, hi, ids) && fewer <= ids
    ensures FreshAt(fate.appears(lo), ids) && Fresh(fate, lo + 1, hi, fewer)
  {
  }

  lemma RestoreFirstSafe(s: Held, pending: seq<Snapshot>, sh: Shadow)
    requires pending != [] && Distinct(pending) && Identities(pending) !! s.snapshots.Keys
    requires Safe(s.desk.windows, Full(s, pending), sh) && FreshAt(s.desk.fate.appears(s.desk.looks), Full(s, pending).Keys)
    ensures var s1 := RestoreOne(s, pending[0]).0;
            && Safe(s1.desk.windows, Full(s1, pending[1..]), sh.Past(s.desk.fate, s.desk.looks, s.desk.looks + 1))
            && Full(s1, pending[1..]).Keys <= Full(s, pending).Keys
            && Distinct(pending[1..]) && Identities(pending[1..]) !! s1.snapshots.Keys
  {
    SplitFirst(s.snapshots, pending);
    RestoreOneSafe(s, pending[0], Full(s, pending), sh);
    RestoreOneHolds(s, pending[0]);
  }

  lemma RestoreOneHolds(s: Held, snap: Snapshot)
    ensures var (s1, ok) := RestoreOne(s, snap);
            s1.snapshots == if ok then s.snapshots else s.snapshots[snap.identity := snap]
  {
  }

  /** While a drain is running every window is covered by what is kept already or still to try. */
  lemma {:induction false} RestorePendingSafe(s: Held, failures: nat, pending: seq<Snapshot>, sh: Shadow)
    requires Distinct(pending) && Identities(pending) !! s.snapshots.Keys
    requires Safe(s.desk.windows, Full(s, pending), sh)
    requires Fresh(s.desk.fate, s.desk.looks, s.desk.looks + |pending|, Full(s, pending).Keys)
    ensures SafePast(s.desk, RestorePending(s, failures, pending).0, sh)
    decreases pending
  {
    if pending == [] {
      assert Full(s, pending) == s.snapshots;
    } else {
      var (s1, ok) := RestoreOne(s, pending[0]);
      var n := if ok then failures else failures + 1;
      RestoreFirstHolds(s, pending, sh, s.desk.looks + |pending|);
      RestorePendingSafe(s1, n, pending[1..], sh.Past(s.desk.fate, s.desk.looks, s1.desk.looks));
      RestoresFollow(s1, n, pending[1..]);
      SafePastComposes(s.desk, s1.desk, RestorePending(s1, n, pending[1..]).0, sh);
    }
  }

  /** Everything is covered after some checks, by a shadow that has seen them too. */
  predicate SafePast(before: Desk, after: Held, sh: Shadow) {
    Safe(after.desk.windows, after.snapshots, sh.Past(before.fate, before.looks, after.desk.looks))
  }

  lemma SafePastComposes(before: Desk, d: Desk, after: Held, sh: Shadow)
    requires d.fate == before.fate && before.looks <= d.looks <= after.desk.looks
    requires SafePast(d, after, sh.Past(before.fate, before.looks, d.looks))
    ensures SafePast(before, after, sh)
  {
    PastComposes(sh, before.fate, before.looks, d.looks, after.desk.looks);
  }

  lemma RestoreFirstHolds(s: Held, pending: seq<Snapshot>, sh: Shadow, hi: nat)
    requires pending != [] && Distinct(pending) && Identities(pending) !! s.snapshots.Keys
    requires Safe(s.desk.windows, Full(s, pending), sh) && s.desk.looks < hi && Fresh(s.desk.fate, s.desk.looks, hi, Full(s, pending).Keys)
    ensures var s1 := RestoreOne(s, pending[0]).0;
            && Safe(s1.desk.windows, Full(s1, pending[1..]), sh.Past(s.desk.fate, s.desk.looks, s.desk.looks + 1))
            && Fresh(s1.desk.fate, s1.desk.looks, hi, Full(s1, pending[1..]).Keys)
            && s1.desk.fate == s.desk.fate && s1.desk.looks == s.desk.looks + 1
            && Distinct(pending[1..]) && Identities(pending[1..]) !! s1.snapshots.Keys
  {
    var s1 := RestoreOne(s, pending[0]).0;
    RestoreOneFollows(s, pending[0]);
    FreshSplits(s.desk.fate, s.desk.looks, hi, Full(s, pending).Keys, Full(s, pending).Keys);
    RestoreFirstSafe(s, pending, sh);
    FreshSplits(s.desk.fate, s.desk.looks, hi, Full(s, pending).Keys, Full(s1, pending[1..]).Keys);
  }

  predicate SubMap(a: Snapshots, b: Snapshots) {
    forall id | id in a :: id in b && a[id] == b[id]
  }

  /** Whatever fails: the failure count is the number of snapshots kept, and those kept are old ones. */
  lemma {:induction false} FailuresAreKept(s: Held, failures: nat, pending: seq<Snapshot>)
    requires Distinct(pending) && Identities(pending) !! s.snapshots.Keys
    ensures var (s', n) := RestorePending(s, failures, pending);
            && n - failures == |s'.snapshots| - |s.snapshots|
            && SubMap(s.snapshots, s'.snapshots)
            && SubMap(s'.snapshots, s.snapshots + AsMap(pending))
    decreases pending
  {
    if pending != [] {
      var (s1, ok) := RestoreOne(s, pending[0]);
      RestoreOneHolds(s, pending[0]);
      SplitFirst(s.snapshots, pending);
      FailuresAreKept(s1, if ok then failures else failures + 1, pending[1..]);
    }
  }

  /** A drain keeps the invariant, and its failure count is the number of snapshots it keeps. */
  lemma DrainSafe(s: Held, order: seq<Snapshot>, stale: map<WindowIdentity, StaleState>, sh: Shadow)
    requires Safe(s.desk.windows, s.snapshots, sh) && IsOrder(order, s.snapshots, stale)
    requires Fresh(s.desk.fate, s.desk.looks, s.desk.looks + |order|, s.snapshots.Keys)
    ensures var (s', n) := Drain(s, order);
            && SafePast(s.desk, s', sh)
            && s'.desk.fate == s.desk.fate && s'.desk.looks == s.desk.looks + |order|
            && n == |s'.snapshots|
  {
    var start := Held(s.desk, map[]);
    OrderCovers(order, s.snapshots, stale);
    assert Full(start, order) == s.snapshots;
    RestoresFollow(start, 0, order);
    FailuresAreKept(start, 0, order);
    RestorePendingSafe(start, 0, order, sh);
  }

  lemma OrderCovers(order: seq<Snapshot>, snapshots: Snapshots, stale: map<WindowIdentity, StaleState>)
    requires IsOrder(order, snapshots, stale)
    ensures map[] + AsMap(order) == AsMap(order) == snapshots
  {
    AsMapKeys(order);
    forall id | id in snapshots ensures id in AsMap(order) && AsMap(order)[id] == snapshots[id] {
      assert id in Identities(order);
      var r :| r in order && r.identity == id;
    }
  }

  lemma VisitFollows(e: EngineState, matched: set<WindowIdentity>, id: WindowIdentity)
    ensures Follows(e.desk, StaleVisit(e, matched, id).desk)
    ensures StaleVisit(e, matched, id).snapshots.Keys <= e.snapshots.Keys
    ensures StaleVisit(e, matched, id).desk == e.desk || StaleVisit(e, matched, id).desk.looks == e.desk.looks + 1
  {
    if id !in matched && id in e.snapshots {
      RestoreFollows(e.desk.Looked(e.snapshots[id].identity.hwnd), e.snapshots[id]);
    }
  }

  lemma RestoreFollows(d: Desk, snap: Snapshot)
    ensures var d1 := RestoreSnapshot(d, snap).0; d1.fate == d.fate && d1.looks == d.looks
  {
  }

  lemma {:induction false} StaleFollows(e: EngineState, matched: set<WindowIdentity>, pending: seq<WindowIdentity>)
    ensures Follows(e.desk, StalePass(e, matched, pending).desk)
    decreases pending
  {
    if pending != [] {
      VisitFollows(e, matched, pending[0]);
      StaleFollows(StaleVisit(e, matched, pending[0]), matched, pending[1..]);
    }
  }

  predicate Checks(e: EngineState, matched: set<WindowIdentity>, id: WindowIdentity) {
    id !in matched && id in e.snapshots && CountMiss(if id in e.stale then e.stale[id] else FRESH).1
  }

  /** A visit checks its window once, or leaves desktop and snapshots alone. */
  lemma VisitLooks(e: EngineState, matched: set<WindowIdentity>, id: WindowIdentity)
    ensures var e' := StaleVisit(e, matched, id);
            if Checks(e, matched, id) then e'.desk.looks == e.desk.looks + 1 else e'.desk == e.desk && e'.snapshots == e.snapshots
  {
    if Checks(e, matched, id) {
      RestoreFollows(e.desk.Looked(e.snapshots[id].identity.hwnd), e.snapshots[id]);
    }
  }

  /** The visit after its check. */
  lemma VisitSafe(e: EngineState, matched: set<WindowIdentity>, id: WindowIdentity, sh: Shadow)
    requires Checks(e, matched, id) && e.snapshots[id].identity == id
    requires Safe(e.desk.Looked(id.hwnd).windows, e.snapshots, sh)
    ensures var e' := StaleVisit(e, matched, id); Safe(e'.desk.windows, e'.snapshots, sh)
  {
    var d := e.desk.Looked(id.hwnd);
    if d.Matches(id) {
      RestoreSnapshotSafe(d, e.snapshots, e.snapshots[id], sh);
    } else {
      DropGoneSafe(d, e.snapshots, id, sh);
    }
  }

  lemma StaleVisitSafe(e: EngineState, matched: set<WindowIdentity>, id: WindowIdentity, sh: Shadow)
    requires Safe(e.desk.windows, e.snapshots, sh)
    requires Fresh(e.desk.fate, e.desk.looks, StaleVisit(e, matched, id).desk.looks, e.snapshots.Keys)
    ensures var e' := StaleVisit(e, matched, id);
            Safe(e'.desk.windows, e'.snapshots, sh.Past(e.desk.fate, e.desk.looks, e'.desk.looks))
  {
    VisitLooks(e, matched, id);
    if Checks(e, matched, id) && e.snapshots[id].identity == id {
      LookSafe(e.desk, id.hwnd, e.snapshots, sh);
      VisitSafe(e, matched, id, sh.Past(e.desk.fate, e.desk.looks, e.desk.looks + 1));
    }
  }

  lemma {:induction false} StalePassSafe(e: EngineState, matched: set<WindowIdentity>, pending: seq<WindowIdentity>, sh: Shadow)
    requires Safe(e.desk.windows, e.snapshots, sh)
    requires Fresh(e.desk.fate, e.desk.looks, StalePass(e, matched, pending).desk.looks, e.snapshots.Keys)
    ensures var e' := StalePass(e, matched, pending);
            Safe(e'.desk.windows, e'.snapshots, sh.Past(e.desk.fate, e.desk.looks, e'.desk.looks)) && Follows(e.desk, e'.desk)
    decreases pending
  {
    if pending != [] {
      var e1, e' := StaleVisit(e, matched, pending[0]), StalePass(e, matched, pending);
      VisitFollows(e, matched, pending[0]);
      StaleFollows(e1, matched, pending[1..]);
      StaleVisitSafe(e, matched, pending[0], sh);
      StalePassSafe(e1, matched, pending[1..], sh.Past(e.desk.fate, e.desk.looks, e1.desk.looks));
      PastComposes(sh, e.desk.fate, e.desk.looks, e1.desk.looks, e'.desk.looks);
    }
  }

  // ---------------------------------------------------------------- whole runs

  /** What the application does to one of its windows. */
  datatype AppCall = SetVisible(visible: bool) | MoveTo(x: int, y: int) | SetSize(width: int, height: int)

  /** The same call on the window as it is and on its shadow. */
  function Acted(rec: WindowRec, call: AppCall): WindowRec {
    match call
    case SetVisible(v) => rec.(visible := v)
    case MoveTo(x, y) =>
      if rec.rect.None? then rec
      else
        var r := rec.rect.value;
        rec.(rect := Some(Rect(x, y, x + (r.right - r.left), y + (r.bottom - r.top))))
    case SetSize(w, h) =>
      if rec.rect.None? then rec
      else
        var r := rec.rect.value;
        rec.(rect := Some(Rect(r.left, r.top, r.left + w, r.top + h)))
  }

  /** What happens between the engine's own steps. */
  datatype Event =
    | Die(gone: set<Hwnd>)
    | Create(hwnd: Hwnd, rec: WindowRec)
    | Change(hwnd: Hwnd, visible: bool, rect: Option<Rect>)
    | Act(hwnd: Hwnd, call: AppCall)
    | Condition(hung: set<Hwnd>, live: bool)

  /** One step of the worker or of the world; `order` is the order in which snapshots are visited. */
  datatype Step =
    | Tick(graph: WindowGraph, pids: set<Pid>, plan: Plan, matched: set<WindowIdentity>, applying: bool, order: seq<Snapshot>)
    | OffDrain(order: seq<Snapshot>)
    | FinalDrain(order: seq<Snapshot>)
    | ResetFailures
    | ClearTransient
    | Prune(present: set<WindowIdentity>)
    | Outside(event: Event)

  datatype World = World(engine: EngineState, shadow: Shadow) {
    function Holding(): Held { Held(engine.desk, engine.snapshots) }
  }

  predicate Invariant(w: World) { Safe(w.engine.desk.windows, w.engine.snapshots, w.shadow) }

  /** A call on a held window the snapshot stays good for: showing a window that was visible or hiding
      one that was not, moving a child or a window without area, and anything that leaves position and
      size of the untouched window as they were. */
  predicate Harmless(call: AppCall, o: WindowRec) {
    match call
    case SetVisible(v) => v == o.visible
    case MoveTo(x, y) => o.parent != 0 || Empty(o.rect) || SamePosition(Some(Rect(x, y, x, y)), o.rect)
    case SetSize(w, h) => o.rect.Some? && w == o.rect.value.right - o.rect.value.left && h == o.rect.value.bottom - o.rect.value.top
  }

  /** Identities are not reused while held, and the application's calls on held windows are harmless. */
  predicate EventAllowed(w: World, e: Event) {
    match e
    case Create(h, rec) =>
      h !in w.engine.desk.windows && rec.IdentityAs(h) !in w.engine.snapshots && Regular(rec.rect)
    case Change(h, _, rect) =>
      && h in w.engine.desk.windows
      && w.engine.desk.windows[h].IdentityAs(h) !in w.engine.snapshots
      && Regular(rect)
    case Act(h, call) =>
      && h in w.engine.desk.windows && h in w.shadow.orig
      && w.engine.desk.windows[h].IdentityAs(h) in w.engine.snapshots
      && Harmless(call, w.shadow.orig[h])
    case _ => true
  }

  /** What each step assumes of the outside while it runs. */
  ghost predicate Allowed(w: World, step: Step) {
    var d := w.engine.desk;
    match step
    case Tick(graph, pids, plan, _, applying, order) =>
      var s := ApplyPlan(w.Holding(), graph, pids, plan);
      && GraphFits(d, graph) && PlanFits(graph, plan)
      && Undisturbed(d, s.desk, w.engine.snapshots, graph)
      && IsOrder(order, s.snapshots, map[])
      && Fresh(d.fate, s.desk.looks, AfterTick(w.engine, step).desk.looks, s.snapshots.Keys)
    case OffDrain(order) =>
      IsOrder(order, w.engine.snapshots, map[]) && Fresh(d.fate, d.looks, d.looks + |order|, w.engine.snapshots.Keys)
    case FinalDrain(order) =>
      IsOrder(order, w.engine.snapshots, w.engine.stale) && Fresh(d.fate, d.looks, d.looks + |order|, w.engine.snapshots.Keys)
    case Outside(e) => EventAllowed(w, e)
    case _ => true
  }

  function AfterEvent(w: World, e: Event): World {
    var desk := w.engine.desk;
    match e
    case Die(gone) => w.(engine := w.engine.(desk := desk.(windows := desk.windows - gone)))
    case Create(h, rec) =>
      World(w.engine.(desk := desk.(windows := desk.windows[h := rec])), w.shadow.Next(map[h := rec]))
    case Change(h, visible, rect) =>
      if h !in desk.windows then w
      else
        var rec := desk.windows[h].(visible := visible, rect := rect);
        World(w.engine.(desk := desk.(windows := desk.windows[h := rec])), w.shadow.Next(map[h := rec]))
    case Act(h, call) =>
      if h !in desk.windows || h !in w.shadow.orig then w
      else
        World(w.engine.(desk := desk.(windows := desk.windows[h := Acted(desk.windows[h], call)])),
              w.shadow.(orig := w.shadow.orig[h := Acted(w.shadow.orig[h], call)]))
    case Condition(hung, live) => w.(engine := w.engine.(desk := desk.(hung := hung, live := live)))
  }

  function AfterDrain(e: EngineState, order: seq<Snapshot>): EngineState {
    var s := Drain(Held(e.desk, e.snapshots), order).0;
    EngineState(s.desk, s.snapshots, KeptStale(e.stale, s.snapshots))
  }

  function AfterTick(e: EngineState, step: Step): EngineState
    requires step.Tick?
  {
    if !step.applying then e
    else
      var s := ApplyPlan(Held(e.desk, e.snapshots), step.graph, step.pids, step.plan);
      StalePass(EngineState(s.desk, s.snapshots, e.stale), step.matched, IdentitySeq(step.order))
  }

  /** The engine moved on; so did the shadow, by the windows that appeared meanwhile. */
  function Moved(w: World, e: EngineState, sh: Shadow): World {
    World(e, sh.Past(w.engine.desk.fate, w.engine.desk.looks, e.desk.looks))
  }

  function After(w: World, step: Step): World {
    match step
    case Tick(_, _, plan, _, _, _) => Moved(w, AfterTick(w.engine, step), Resizing(w.shadow, plan))
    case OffDrain(order) => Moved(w, AfterDrain(w.engine, order), w.shadow)
    case FinalDrain(order) => Moved(w, AfterDrain(w.engine, order), w.shadow)
    case ResetFailures => w.(engine := w.engine.(stale := ClearedFailures(w.engine.stale)))
    case ClearTransient => w.(engine := w.engine.(stale := map[]))
    case Prune(present) => w.(engine := w.engine.(stale := PrunedStale(w.engine.stale, w.engine.snapshots, present)))
    case Outside(e) => AfterEvent(w, e)
  }

  function Run(w: World, steps: seq<Step>): World
    decreases steps
  {
    if steps == [] then w else Run(After(w, steps[0]), steps[1..])
  }

  ghost predicate AllowedRun(w: World, steps: seq<Step>)
    decreases steps
  {
    steps == [] || (Allowed(w, steps[0]) && AllowedRun(After(w, steps[0]), steps[1..]))
  }

  /** A fresh worker on a desktop nobody has touched. */
  predicate Initial(w: World) {
    && w.engine.snapshots == map[] && w.engine.stale == map[]
    && w.shadow == Shadow(w.engine.desk.windows, {})
    && forall h | h in w.shadow.orig :: Regular(w.shadow.orig[h].rect)
  }

  lemma TickKeepsInvariant(w: World, step: Step)
    requires step.Tick? && Invariant(w) && Allowed(w, step)
    ensures Invariant(After(w, step))
  {
    var sh, d := Resizing(w.shadow, step.plan), w.engine.desk;
    if step.applying {
      var s := ApplyPlan(w.Holding(), step.graph, step.pids, step.plan);
      ApplyPlanSafe(w.Holding(), step.graph, step.pids, step.plan, w.shadow);
      var e1 := EngineState(s.desk, s.snapshots, w.engine.stale);
      StaleFollows(e1, step.matched, IdentitySeq(step.order));
      StalePassSafe(e1, step.matched, IdentitySeq(step.order), sh.Past(d.fate, d.looks, s.desk.looks));
      PastComposes(sh, d.fate, d.looks, s.desk.looks, AfterTick(w.engine, step).desk.looks);
    } else {
      ResizingSafe(d, w.engine.snapshots, step.graph, step.plan, w.shadow);
    }
  }

  lemma StepKeepsInvariant(w: World, step: Step)
    requires Invariant(w) && Allowed(w, step)
    ensures Invariant(After(w, step))
  {
    match step
    case Tick(_, _, _, _, _, _) => TickKeepsInvariant(w, step);
    case OffDrain(order) => DrainSafe(w.Holding(), order, map[], w.shadow);
    case FinalDrain(order) => DrainSafe(w.Holding(), order, w.engine.stale, w.shadow);
    case Outside(e) => EventKeepsInvariant(w, e);
    case _ =>
  }

  /** A harmless call keeps a suppressed window recoverable. */
  lemma HarmlessKeepsSuppressed(now: WindowRec, o: WindowRec, snap: Snapshot, resized: bool, call: AppCall)
    requires Suppressed(now, o, snap, resized) && Regular(o.rect) && (resized ==> now.parent != 0) && Harmless(call, o)
    ensures Suppressed(Acted(now, call), Acted(o, call), snap, resized) && Regular(Acted(o, call).rect)
  {
  }

  /** A window nobody holds is untouched by definition, however it looks. */
  lemma NewcomerSafe(windows: Windows, snapshots: Snapshots, sh: Shadow, h: Hwnd, rec: WindowRec)
    requires Safe(windows, snapshots, sh) && Regular(rec.rect) && rec.IdentityAs(h) !in snapshots
    ensures Safe(windows[h := rec], snapshots, sh.Next(map[h := rec]))
  {
    var next := sh.Next(map[h := rec]);
    forall x | x in windows[h := rec] ensures x in next.orig && Sound(x, windows[h := rec][x], next.orig[x], snapshots, x in next.touched) {
      if x != h {
        assert Sound(x, windows[x], sh.orig[x], snapshots, x in sh.touched);
      }
    }
  }

  lemma HarmlessSafe(windows: Windows, snapshots: Snapshots, sh: Shadow, h: Hwnd, call: AppCall)
    requires Safe(windows, snapshots, sh) && h in windows && windows[h].IdentityAs(h) in snapshots && Harmless(call, sh.orig[h])
    ensures Safe(windows[h := Acted(windows[h], call)], snapshots, sh.(orig := sh.orig[h := Acted(sh.orig[h], call)]))
  {
    var windows', orig' := windows[h := Acted(windows[h], call)], sh.orig[h := Acted(sh.orig[h], call)];
    HarmlessKeepsSuppressed(windows[h], sh.orig[h], snapshots[windows[h].IdentityAs(h)], h in sh.touched, call);
    forall x | x in windows' ensures x in orig' && Sound(x, windows'[x], orig'[x], snapshots, x in sh.touched) {
      assert Sound(x, windows[x], sh.orig[x], snapshots, x in sh.touched);
    }
  }

  lemma EventKeepsInvariant(w: World, e: Event)
    requires Invariant(w) && EventAllowed(w, e)
    ensures Invariant(AfterEvent(w, e))
  {
    var windows, snapshots := w.engine.desk.windows, w.engine.snapshots;
    match e
    case Die(gone) =>
      assert forall h | h in windows - gone :: h in windows;
    case Create(h, rec) =>
      NewcomerSafe(windows, snapshots, w.shadow, h, rec);
    case Change(h, visible, rect) =>
      NewcomerSafe(windows, snapshots, w.shadow, h, windows[h].(visible := visible, rect := rect));
    case Act(h, call) =>
      HarmlessSafe(windows, snapshots, w.shadow, h, call);
    case Condition(_, _) =>
  }

  /** In every reachable state each live window is untouched or covered by a snapshot of its untouched state. */
  lemma {:induction false} EveryRunIsUndoable(w: World, steps: seq<Step>)
    requires Invariant(w) && AllowedRun(w, steps)
    ensures Invariant(Run(w, steps))
    decreases steps
  {
    if steps != [] {
      StepKeepsInvariant(w, steps[0]);
      EveryRunIsUndoable(After(w, steps[0]), steps[1..]);
    }
  }

  /** A held snapshot remembers the visibility, the size and, for a top-level window, the position. */
  lemma ReachableIsUndoable(w: World, steps: seq<Step>, h: Hwnd)
    requires Initial(w) && AllowedRun(w, steps)
    requires h in Run(w, steps).engine.desk.windows
    ensures var w' := Run(w, steps);
            var now, sh := w'.engine.desk.windows[h], w'.shadow;
            var id := now.IdentityAs(h);
            && h in sh.orig
            && (id in w'.engine.snapshots || Untouched(now, sh.orig[h], h in sh.touched))
            && (id in w'.engine.snapshots ==>
                  var snap, o := w'.engine.snapshots[id], sh.orig[h];
                  && snap.identity == id
                  && snap.wasVisible == o.visible
                  && snap.topLevel == (o.parent == 0)
                  && (o.parent == 0 && !Empty(o.rect) ==> snap.rect == o.rect)
                  && (o.parent != 0 ==> SamePosition(now.rect, o.rect))
                  && (h !in sh.touched ==> if Empty(o.rect) then now.rect == o.rect else SameSize(snap.rect, o.rect)))
  {
    EveryRunIsUndoable(w, steps);
    var w' := Run(w, steps);
    assert Sound(h, w'.engine.desk.windows[h], w'.shadow.orig[h], w'.engine.snapshots, h in w'.shadow.touched);
  }

  /** After any run, a drain that reports no failure puts every live window back. */
  lemma CleanDrainRestoresEverything(w: World, steps: seq<Step>, order: seq<Snapshot>, final: bool)
    requires Initial(w) && AllowedRun(w, steps)
    requires Allowed(Run(w, steps), if final then FinalDrain(order) else OffDrain(order))
    requires Drain(Run(w, steps).Holding(), order).1 == 0
    ensures var w' := After(Run(w, steps), if final then FinalDrain(order) else OffDrain(order));
            && w'.engine.snapshots == map[]
            && forall h | h in w'.engine.desk.windows ::
                 h in w'.shadow.orig && Untouched(w'.engine.desk.windows[h], w'.shadow.orig[h], h in w'.shadow.touched)
  {
    EveryRunIsUndoable(w, steps);
    var w1 := Run(w, steps);
    var step := if final then FinalDrain(order) else OffDrain(order);
    StepKeepsInvariant(w1, step);
    DrainSafe(w1.Holding(), order, if final then w1.engine.stale else map[], w1.shadow);
    var w' := After(w1, step);
    assert w'.engine.snapshots == map[];
    forall h | h in w'.engine.desk.windows
      ensures h in w'.shadow.orig && Untouched(w'.engine.desk.windows[h], w'.shadow.orig[h], h in w'.shadow.touched)
    {
      assert Sound(h, w'.engine.desk.windows[h], w'.shadow.orig[h], w'.engine.snapshots, h in w'.shadow.touched);
    }
  }
}

/** Suppression can always be undone. A `Shadow` is the desktop as it would be had the engine never
    touched it, with the main views the engine has resized on purpose. The invariant `Safe` ties the
    desktop, the snapshots and the shadow together and holds after any sequence of ticks, drains,
    resets and outside events, whatever calls fail. */
module Undo {
  import opened Model
  import opened Desktop
  import opened Engine

  type Windows = map<Hwnd, WindowRec>

  datatype Shadow = Shadow(orig: Windows, touched: set<Hwnd>) {
    /** New windows are untouched by definition. */
    function Next(came: Windows): Shadow { Shadow(orig + came, touched - came.Keys) }

    /** The shadow after the windows of these checks have appeared. */
    function Past(fate: Fate, lo: nat, hi: nat): Shadow
      decreases hi - lo
    {
      if lo >= hi then this else Next(fate.appears(lo)).Past(fate, lo + 1, hi)
    }
  }

  lemma {:induction false} PastComposes(sh: Shadow, fate: Fate, lo: nat, mid: nat, hi: nat)
    requires lo <= mid <= hi
    ensures sh.Past(fate, lo, mid).Past(fate, mid, hi) == sh.Past(fate, lo, hi)
    decreases mid - lo
  {
    if lo < mid {
      PastComposes(sh.Next(fate.appears(lo)), fate, lo + 1, mid, hi);
    }
  }

  /** Rectangles that zero-sizing and restoring bring back: both dimensions positive and
      representable, or both zero. */
  predicate Regular(rect: Option<Rect>) {
    && rect.Some?
    && var w, h := rect.value.right - rect.value.left, rect.value.bottom - rect.value.top;
       (0 < w <= I32_MAX && 0 < h <= I32_MAX) || (w == 0 && h == 0)
  }

  predicate Empty(rect: Option<Rect>) {
    rect.Some? && rect.value.Width() == 0 && rect.value.Height() == 0
  }

  predicate SamePosition(a: Option<Rect>, b: Option<Rect>) {
    a.Some? && b.Some? && a.value.left == b.value.left && a.value.top == b.value.top
  }

  predicate SameSize(a: Option<Rect>, b: Option<Rect>) {
    && a.Some? && b.Some?
    && a.value.right - a.value.left == b.value.right - b.value.left
    && a.value.bottom - a.value.top == b.value.bottom - b.value.top
  }

  /** Equal geometry; a main view the engine resized only keeps its position. */
  predicate SameGeometry(a: Option<Rect>, b: Option<Rect>, resized: bool) {
    SamePosition(a, b) && (resized || a == b)
  }

  predicate SameWindow(a: WindowRec, b: WindowRec) {
    a.pid == b.pid && a.className == b.className && a.parent == b.parent && a.owner == b.owner
  }

  /** The window looks exactly as if the engine had never run. */
  predicate Untouched(now: WindowRec, o: WindowRec, resized: bool) {
    SameWindow(now, o) && now.visible == o.visible && SameGeometry(now.rect, o.rect, resized)
  }

  /** What the snapshot has to remember of the geometry: nothing of a window without area, which is
      then left alone, the size of a child, whose position is never changed, and both of a top-level
      window. */
  predicate GeometryHeld(now: WindowRec, o: WindowRec, snap: Snapshot, resized: bool) {
    && (o.parent != 0 ==> SamePosition(now.rect, o.rect))
    && if Resizable(snap.rect)
       then (resized || SameSize(snap.rect, o.rect)) && (o.parent == 0 ==> SamePosition(snap.rect, o.rect))
       else resized || (Empty(o.rect) && now.rect == o.rect)
  }

  /** The window may be suppressed, but `snap` is enough to bring it back. */
  predicate Suppressed(now: WindowRec, o: WindowRec, snap: Snapshot, resized: bool) {
    && SameWindow(now, o)
    && now.rect.Some?
    && snap.wasVisible == o.visible
    && snap.topLevel == (o.parent == 0)
    && (now.visible ==> o.visible)
    && GeometryHeld(now, o, snap, resized)
  }

  predicate Sound(h: Hwnd, now: WindowRec, o: WindowRec, snapshots: Snapshots, resized: bool) {
    && Regular(o.rect)
    && (resized ==> now.parent != 0)
    && var id := now.IdentityAs(h);
       if id in snapshots then Suppressed(now, o, snapshots[id], resized) else Untouched(now, o, resized)
  }

  predicate Safe(windows: Windows, snapshots: Snapshots, sh: Shadow) {
    && Keyed(snapshots)
    && forall h | h in windows :: h in sh.orig && Sound(h, windows[h], sh.orig[h], snapshots, h in sh.touched)
  }

  // ---------------------------------------------------------------- what an operation may assume

  /** None of the windows that appear before these checks has one of these identities, and each is regular. */
  ghost predicate Fresh(fate: Fate, lo: nat, hi: nat, ids: set<WindowIdentity>) {
    forall n | lo <= n < hi :: FreshAt(fate.appears(n), ids)
  }

  predicate FreshAt(came: Windows, ids: set<WindowIdentity>) {
    forall h | h in came :: came[h].IdentityAs(h) !in ids && Regular(came[h].rect)
  }

  /** Before these checks no window responds again and the engine is not switched on. */
  ghost predicate NoRecovery(fate: Fate, lo: nat, hi: nat) {
    forall n | lo <= n < hi :: fate.recovers(n) == {} && !fate.switchesOn(n)
  }

  function IdentitiesOf(graph: WindowGraph): set<WindowIdentity> { set h | h in graph.nodes :: graph.nodes[h].Identity() }

  /** A graph read from this desktop: handles, rectangles and tree positions agree. */
  predicate GraphFits(d: Desk, graph: WindowGraph) {
    graph.WellKeyed() && forall h | h in graph.nodes && h in d.windows ::
      && graph.nodes[h].rect == d.windows[h].rect
      && (graph.nodes[h].structuralParent.None? <==> d.windows[h].parent == 0)
  }

  /** Main views are child windows. */
  predicate PlanFits(graph: WindowGraph, plan: Plan) {
    forall p | p in plan.setPos && p.ViewResize() ::
      p.hwnd in graph.nodes && graph.nodes[p.hwnd].structuralParent.Some?
  }

  function ViewTargets(plan: Plan): set<Hwnd> { set p | p in plan.setPos && p.ViewResize() :: p.hwnd }

  /** The part of `GraphFits` that outlives the first mutation of the tick: what the graph knows of the
      windows that are still the ones it describes. */
  predicate GraphKnows(windows: Windows, graph: WindowGraph, sh: Shadow, views: set<Hwnd>) {
    graph.WellKeyed() && forall h | h in graph.nodes && h in windows && windows[h].IdentityAs(h) == graph.nodes[h].Identity() ::
      && (graph.nodes[h].structuralParent.None? <==> windows[h].parent == 0)
      && (h in sh.orig && Empty(sh.orig[h].rect) && h !in sh.touched ==> AlreadyEmpty(graph.nodes[h]))
      && (h in views ==> h in sh.touched)
  }

  /** Every target that may still be touched has its snapshot. */
  predicate Covered(s: Held, graph: WindowGraph, pids: set<Pid>, targets: seq<Hwnd>) {
    forall h | h in targets && Verdict(s.desk, graph, pids, h) :: graph.nodes[h].Identity() in s.snapshots
  }

  /** `d'` is `d` some time later. */
  ghost predicate Follows(d: Desk, d': Desk) { d'.fate == d.fate && d.looks <= d'.looks }

  /** Moreover no window with one of these identities came, changed or recovered. */
  ghost predicate Later(d: Desk, d': Desk, ids: set<WindowIdentity>) {
    && Follows(d, d')
    && (d'.live ==> d.live)
    && d.hung <= d'.hung
    && forall h | h in d'.windows && d'.windows[h].IdentityAs(h) in ids :: h in d.windows && SameWindow(d.windows[h], d'.windows[h])
  }

  lemma VerdictWasTrue(d: Desk, d': Desk, graph: WindowGraph, pids: set<Pid>, h: Hwnd)
    requires Later(d, d', IdentitiesOf(graph)) && Verdict(d', graph, pids, h)
    ensures Verdict(d, graph, pids, h)
  {
  }

  lemma LaterComposes(d: Desk, d1: Desk, d2: Desk, ids: set<WindowIdentity>)
    requires Later(d, d1, ids) && Later(d1, d2, ids)
    ensures Later(d, d2, ids)
  {
  }

  // ---------------------------------------------------------------- one interaction

  /** A check changes nothing; the windows that appeared before it are untouched. */
  lemma LookSafe(d: Desk, h: Hwnd, snapshots: Snapshots, sh: Shadow)
    requires Safe(d.windows, snapshots, sh) && FreshAt(d.fate.appears(d.looks), snapshots.Keys)
    ensures Safe(d.Looked(h).windows, snapshots, sh.Past(d.fate, d.looks, d.looks + 1))
    ensures Follows(d, d.Looked(h)) && d.Looked(h).looks == d.looks + 1
  {
    var came := d.fate.appears(d.looks);
    var next := sh.Next(came);
    assert next.Past(d.fate, d.looks + 1, d.looks + 1) == next;
    forall g | g in d.Looked(h).windows ensures g in next.orig && Sound(g, d.Looked(h).windows[g], next.orig[g], snapshots, g in next.touched) {
      if g !in came {
        assert Sound(g, d.windows[g], sh.orig[g], snapshots, g in sh.touched);
      }
    }
  }

  lemma LookLater(d: Desk, h: Hwnd, graph: WindowGraph, sh: Shadow, views: set<Hwnd>, ids: set<WindowIdentity>)
    requires FreshAt(d.fate.appears(d.looks), ids) && IdentitiesOf(graph) <= ids
    requires d.fate.recovers(d.looks) == {} && !d.fate.switchesOn(d.looks)
    requires GraphKnows(d.windows, graph, sh, views)
    ensures Later(d, d.Looked(h), ids)
    ensures GraphKnows(d.Looked(h).windows, graph, sh.Past(d.fate, d.looks, d.looks + 1), views)
  {
    var came := d.fate.appears(d.looks);
    assert sh.Next(came).Past(d.fate, d.looks + 1, d.looks + 1) == sh.Next(came);
    forall g | g in graph.nodes && g in came ensures came[g].IdentityAs(g) != graph.nodes[g].Identity() {
      assert graph.nodes[g].Identity() in IdentitiesOf(graph);
    }
  }

  lemma RememberSafe(s: Held, graph: WindowGraph, pids: set<Pid>, h: Hwnd, sh: Shadow, views: set<Hwnd>)
    requires Safe(s.desk.windows, s.snapshots, sh) && GraphKnows(s.desk.windows, graph, sh, views)
    requires Verdict(s.desk, graph, pids, h)
    ensures var s' := Remember(s, graph, h);
            && Safe(s'.desk.windows, s'.snapshots, sh)
            && graph.nodes[h].Identity() in s'.snapshots
            && s.snapshots.Keys <= s'.snapshots.Keys <= s.snapshots.Keys + IdentitiesOf(graph)
  {
    var s' := Remember(s, graph, h);
    forall g | g in s.desk.windows
      ensures g in sh.orig && Sound(g, s.desk.windows[g], sh.orig[g], s'.snapshots, g in sh.touched)
    {
      assert Sound(g, s.desk.windows[g], sh.orig[g], s.snapshots, g in sh.touched);
    }
  }

  lemma HideSafe(d: Desk, snapshots: Snapshots, h: Hwnd, sh: Shadow)
    requires Safe(d.windows, snapshots, sh)
    requires h in d.windows ==> d.windows[h].IdentityAs(h) in snapshots
    ensures Safe(d.ShowWindow(h, false).0.windows, snapshots, sh)
  {
    var d' := d.ShowWindow(h, false).0;
    forall g | g in d'.windows ensures g in sh.orig && Sound(g, d'.windows[g], sh.orig[g], snapshots, g in sh.touched) {
      assert Sound(g, d.windows[g], sh.orig[g], snapshots, g in sh.touched);
    }
  }

  lemma ViewResizeSafe(d: Desk, snapshots: Snapshots, p: Pos, sh: Shadow)
    requires Safe(d.windows, snapshots, sh) && p.hwnd in sh.touched
    ensures Safe(d.SetWindowPos(p.hwnd, p.x, p.y, p.width, p.height, true).0.windows, snapshots, sh)
  {
    var d' := d.SetWindowPos(p.hwnd, p.x, p.y, p.width, p.height, true).0;
    forall g | g in d'.windows ensures g in sh.orig && Sound(g, d'.windows[g], sh.orig[g], snapshots, g in sh.touched) {
      assert Sound(g, d.windows[g], sh.orig[g], snapshots, g in sh.touched);
    }
  }

  lemma ShrinkSafe(d: Desk, snapshots: Snapshots, p: Pos, noMove: bool, sh: Shadow)
    requires Safe(d.windows, snapshots, sh)
    requires p.hwnd in d.windows ==>
               && d.windows[p.hwnd].IdentityAs(p.hwnd) in snapshots
               && (d.windows[p.hwnd].parent != 0 ==> noMove)
               && !(Empty(sh.orig[p.hwnd].rect) && p.hwnd !in sh.touched)
    ensures Safe(d.SetWindowPos(p.hwnd, p.x, p.y, p.width, p.height, noMove).0.windows, snapshots, sh)
  {
    var d' := d.SetWindowPos(p.hwnd, p.x, p.y, p.width, p.height, noMove).0;
    forall g | g in d'.windows ensures g in sh.orig && Sound(g, d'.windows[g], sh.orig[g], snapshots, g in sh.touched) {
      assert Sound(g, d.windows[g], sh.orig[g], snapshots, g in sh.touched);
    }
  }

  /** A mutating call leaves who is behind each handle alone. */
  lemma CallLater(d: Desk, d': Desk, graph: WindowGraph, sh: Shadow, views: set<Hwnd>, ids: set<WindowIdentity>)
    requires GraphKnows(d.windows, graph, sh, views)
    requires d'.fate == d.fate && d'.looks == d.looks && (d'.live ==> d.live) && d.hung <= d'.hung
    requires forall h | h in d'.windows :: h in d.windows && SameWindow(d.windows[h], d'.windows[h])
    ensures Later(d, d', ids) && GraphKnows(d'.windows, graph, sh, views)
  {
  }

  // ---------------------------------------------------------------- the passes of one tick

  /** What is assumed between two points of one apply. */
  ghost predicate Undisturbed(d: Desk, d': Desk, snapshots: Snapshots, graph: WindowGraph) {
    && Fresh(d.fate, d.looks, d'.looks, snapshots.Keys + IdentitiesOf(graph))
    && NoRecovery(d.fate, d.looks, d'.looks)
  }

  /** What a pass from `d` to `d'` keeps. */
  ghost predicate Kept(d: Desk, d': Desk, snapshots: Snapshots, graph: WindowGraph, sh: Shadow, views: set<Hwnd>) {
    && Safe(d'.windows, snapshots, sh.Past(d.fate, d.looks, d'.looks))
    && GraphKnows(d'.windows, graph, sh.Past(d.fate, d.looks, d'.looks), views)
    && Later(d, d', IdentitiesOf(graph))
  }

  lemma KeptComposes(d: Desk, d1: Desk, d2: Desk, s1: Snapshots, s2: Snapshots, graph: WindowGraph, sh: Shadow, views: set<Hwnd>)
    requires Kept(d, d1, s1, graph, sh, views)
    requires Kept(d1, d2, s2, graph, sh.Past(d.fate, d.looks, d1.looks), views)
    ensures Kept(d, d2, s2, graph, sh, views)
  {
    PastComposes(sh, d.fate, d.looks, d1.looks, d2.looks);
    LaterComposes(d, d1, d2, IdentitiesOf(graph));
  }

  /** The check that starts every step of a pass. */
  lemma LookKept(d: Desk, h: Hwnd, snapshots: Snapshots, graph: WindowGraph, sh: Shadow, views: set<Hwnd>)
    requires Safe(d.windows, snapshots, sh) && GraphKnows(d.windows, graph, sh, views)
    requires Undisturbed(d, d.Looked(h), snapshots, graph)
    ensures Kept(d, d.Looked(h), snapshots, graph, sh, views)
  {
    LookSafe(d, h, snapshots, sh);
    LookLater(d, h, graph, sh, views, snapshots.Keys + IdentitiesOf(graph));
  }

  /** A call after the check, once it is known to be safe. */
  lemma CallKept(d: Desk, d': Desk, snapshots: Snapshots, graph: WindowGraph, sh: Shadow, views: set<Hwnd>)
    requires GraphKnows(d.windows, graph, sh, views) && Safe(d'.windows, snapshots, sh)
    requires d'.fate == d.fate && d'.looks == d.looks && (d'.live ==> d.live) && d.hung <= d'.hung
    requires forall h | h in d'.windows :: h in d.windows && SameWindow(d.windows[h], d'.windows[h])
    ensures Kept(d, d', snapshots, graph, sh, views)
  {
    CallLater(d, d', graph, sh, views, IdentitiesOf(graph));
    assert sh.Past(d.fate, d.looks, d'.looks) == sh;
  }

  lemma UndisturbedSplits(d: Desk, d1: Desk, d2: Desk, s: Snapshots, s1: Snapshots, graph: WindowGraph)
    requires Undisturbed(d, d2, s, graph) && Follows(d, d1) && Follows(d1, d2)
    requires s1.Keys <= s.Keys + IdentitiesOf(graph)
    ensures Undisturbed(d, d1, s, graph) && Undisturbed(d1, d2, s1, graph)
  {
  }

  lemma {:induction false} CaptureFollows(s: Held, graph: WindowGraph, pids: set<Pid>, targets: seq<Hwnd>)
    ensures Follows(s.desk, CapturePass(s, graph, pids, targets).desk)
    decreases targets
  {
    if targets != [] {
      var s1 := s.(desk := s.desk.Looked(targets[0]));
      CaptureFollows(if Verdict(s1.desk, graph, pids, targets[0]) then Remember(s1, graph, targets[0]) else s1, graph, pids, targets[1..]);
    }
  }

  lemma {:induction false} CapturePassSafe(s: Held, graph: WindowGraph, pids: set<Pid>, targets: seq<Hwnd>, sh: Shadow, views: set<Hwnd>)
    requires Safe(s.desk.windows, s.snapshots, sh) && GraphKnows(s.desk.windows, graph, sh, views)
    requires Undisturbed(s.desk, CapturePass(s, graph, pids, targets).desk, s.snapshots, graph)
    ensures var s' := CapturePass(s, graph, pids, targets);
            && Kept(s.desk, s'.desk, s'.snapshots, graph, sh, views)
            && s.snapshots.Keys <= s'.snapshots.Keys <= s.snapshots.Keys + IdentitiesOf(graph)
            && Covered(s', graph, pids, targets)
    decreases targets
  {
    if targets == [] {
      CallKept(s.desk, s.desk, s.snapshots, graph, sh, views);
    } else {
      var h, rest, s' := targets[0], targets[1..], CapturePass(s, graph, pids, targets);
      var s1 := s.(desk := s.desk.Looked(h));
      var s2 := if Verdict(s1.desk, graph, pids, h) then Remember(s1, graph, h) else s1;
      var sh1 := sh.Past(s.desk.fate, s.desk.looks, s1.desk.looks);
      CaptureFollows(s2, graph, pids, rest);
      UndisturbedSplits(s.desk, s1.desk, s'.desk, s.snapshots, s.snapshots, graph);
      LookKept(s.desk, h, s.snapshots, graph, sh, views);
      if Verdict(s1.desk, graph, pids, h) {
        RememberSafe(s1, graph, pids, h, sh1, views);
      }
      UndisturbedSplits(s.desk, s1.desk, s'.desk, s.snapshots, s2.snapshots, graph);
      CapturePassSafe(s2, graph, pids, rest, sh1, views);
      KeptComposes(s.desk, s1.desk, s'.desk, s.snapshots, s'.snapshots, graph, sh, views);
      forall g | g in targets && Verdict(s'.desk, graph, pids, g) ensures graph.nodes[g].Identity() in s'.snapshots {
        VerdictWasTrue(s2.desk, s'.desk, graph, pids, g);
        assert g == h || g in rest;
      }
    }
  }

  lemma CoveredLater(s: Held, d': Desk, graph: WindowGraph, pids: set<Pid>, targets: seq<Hwnd>, fewer: seq<Hwnd>)
    requires Covered(s, graph, pids, targets) && Later(s.desk, d', IdentitiesOf(graph)) && forall h | h in fewer :: h in targets
    ensures Covered(s.(desk := d'), graph, pids, fewer)
  {
    forall h | h in fewer && Verdict(d', graph, pids, h) ensures graph.nodes[h].Identity() in s.snapshots {
      VerdictWasTrue(s.desk, d', graph, pids, h);
    }
  }

  lemma {:induction false} HideFollows(d: Desk, graph: WindowGraph, pids: set<Pid>, hides: seq<Hwnd>)
    ensures Follows(d, HidePass(d, graph, pids, hides))
    decreases hides
  {
    if hides != [] {
      HideFollows(HideOne(d, graph, pids, hides[0]), graph, pids, hides[1..]);
    }
  }

  lemma HideOneSafe(s: Held, graph: WindowGraph, pids: set<Pid>, h: Hwnd, sh: Shadow, views: set<Hwnd>)
    requires Safe(s.desk.windows, s.snapshots, sh) && GraphKnows(s.desk.windows, graph, sh, views)
    requires Undisturbed(s.desk, s.desk.Looked(h), s.snapshots, graph) && Covered(s, graph, pids, [h])
    ensures Kept(s.desk, HideOne(s.desk, graph, pids, h), s.snapshots, graph, sh, views)
  {
    var d1, d2 := s.desk.Looked(h), HideOne(s.desk, graph, pids, h);
    LookKept(s.desk, h, s.snapshots, graph, sh, views);
    if Verdict(d1, graph, pids, h) && d1.HasVisibleStyle(h) {
      VerdictWasTrue(s.desk, d1, graph, pids, h);
      assert h in [h];
      var sh1 := sh.Past(s.desk.fate, s.desk.looks, d1.looks);
      HideSafe(d1, s.snapshots, h, sh1);
      CallKept(d1, d2, s.snapshots, graph, sh1, views);
      KeptComposes(s.desk, d1, d2, s.snapshots, s.snapshots, graph, sh, views);
    }
  }

  lemma {:induction false} HidePassSafe(s: Held, graph: WindowGraph, pids: set<Pid>, hides: seq<Hwnd>, sh: Shadow, views: set<Hwnd>)
    requires Safe(s.desk.windows, s.snapshots, sh) && GraphKnows(s.desk.windows, graph, sh, views)
    requires Undisturbed(s.desk, HidePass(s.desk, graph, pids, hides), s.snapshots, graph) && Covered(s, graph, pids, hides)
    ensures Kept(s.desk, HidePass(s.desk, graph, pids, hides), s.snapshots, graph, sh, views)
    decreases hides
  {
    if hides == [] {
      CallKept(s.desk, s.desk, s.snapshots, graph, sh, views);
    } else {
      var h, rest, d' := hides[0], hides[1..], HidePass(s.desk, graph, pids, hides);
      var d1 := HideOne(s.desk, graph, pids, h);
      HideFollows(d1, graph, pids, rest);
      UndisturbedSplits(s.desk, d1, d', s.snapshots, s.snapshots, graph);
      assert h in hides;
      HideOneSafe(s, graph, pids, h, sh, views);
      CoveredLater(s, d1, graph, pids, hides, rest);
      HidePassSafe(s.(desk := d1), graph, pids, rest, sh.Past(s.desk.fate, s.desk.looks, d1.looks), views);
      KeptComposes(s.desk, d1, d', s.snapshots, s.snapshots, graph, sh, views);
    }
  }

  /** A checked view resize. */
  lemma ViewOneSafe(d: Desk, snapshots: Snapshots, graph: WindowGraph, p: Pos, sh: Shadow, views: set<Hwnd>)
    requires Safe(d.windows, snapshots, sh) && GraphKnows(d.windows, graph, sh, views)
    requires p.hwnd in graph.nodes && p.hwnd in d.windows && d.windows[p.hwnd].IdentityAs(p.hwnd) == graph.nodes[p.hwnd].Identity()
    requires p.hwnd in views
    ensures Kept(d, d.SetWindowPos(p.hwnd, p.x, p.y, p.width, p.height, true).0, snapshots, graph, sh, views)
  {
    ViewResizeSafe(d, snapshots, p, sh);
    CallKept(d, d.SetWindowPos(p.hwnd, p.x, p.y, p.width, p.height, true).0, snapshots, graph, sh, views);
  }

  /** A checked zero-sizing of a window that has a snapshot. */
  lemma ShrinkOneSafe(d: Desk, snapshots: Snapshots, graph: WindowGraph, p: Pos, sh: Shadow, views: set<Hwnd>)
    requires Safe(d.windows, snapshots, sh) && GraphKnows(d.windows, graph, sh, views)
    requires p.hwnd in graph.nodes && p.hwnd in d.windows && d.windows[p.hwnd].IdentityAs(p.hwnd) == graph.nodes[p.hwnd].Identity()
    requires graph.nodes[p.hwnd].Identity() in snapshots && !AlreadyEmpty(graph.nodes[p.hwnd])
    ensures var noMove := graph.nodes[p.hwnd].structuralParent.Some?;
            Kept(d, d.SetWindowPos(p.hwnd, p.x, p.y, p.width, p.height, noMove).0, snapshots, graph, sh, views)
  {
    var noMove := graph.nodes[p.hwnd].structuralParent.Some?;
    ShrinkSafe(d, snapshots, p, noMove, sh);
    CallKept(d, d.SetWindowPos(p.hwnd, p.x, p.y, p.width, p.height, noMove).0, snapshots, graph, sh, views);
  }

  lemma PosOneSafe(s: Held, graph: WindowGraph, pids: set<Pid>, p: Pos, sh: Shadow, views: set<Hwnd>)
    requires Safe(s.desk.windows, s.snapshots, sh) && GraphKnows(s.desk.windows, graph, sh, views)
    requires Undisturbed(s.desk, s.desk.Looked(p.hwnd), s.snapshots, graph)
    requires if p.ViewResize() then p.hwnd in views else Covered(s, graph, pids, [p.hwnd])
    ensures var s' := PosOne(s, graph, pids, p);
            Kept(s.desk, s'.desk, s.snapshots, graph, sh, views) && s'.snapshots == s.snapshots
  {
    var d1, s' := s.desk.Looked(p.hwnd), PosOne(s, graph, pids, p);
    LookKept(s.desk, p.hwnd, s.snapshots, graph, sh, views);
    if Verdict(d1, graph, pids, p.hwnd) && (p.ViewResize() || !AlreadyEmpty(graph.nodes[p.hwnd])) {
      var sh1 := sh.Past(s.desk.fate, s.desk.looks, d1.looks);
      if p.ViewResize() {
        ViewOneSafe(d1, s.snapshots, graph, p, sh1, views);
      } else {
        VerdictWasTrue(s.desk, d1, graph, pids, p.hwnd);
        assert p.hwnd in [p.hwnd];
        ShrinkOneSafe(d1, s.snapshots, graph, p, sh1, views);
      }
      KeptComposes(s.desk, d1, s'.desk, s.snapshots, s.snapshots, graph, sh, views);
    }
  }

  lemma {:induction false} PosFollows(s: Held, graph: WindowGraph, pids: set<Pid>, places: seq<Pos>)
    ensures Follows(s.desk, PosPass(s, graph, pids, places).desk)
    decreases places
  {
    if places != [] {
      PosFollows(PosOne(s, graph, pids, places[0]), graph, pids, places[1..]);
    }
  }

  lemma {:induction false} PosPassSafe(s: Held, graph: WindowGraph, pids: set<Pid>, places: seq<Pos>, sh: Shadow, views: set<Hwnd>)
    requires Safe(s.desk.windows, s.snapshots, sh) && GraphKnows(s.desk.windows, graph, sh, views)
    requires Undisturbed(s.desk, PosPass(s, graph, pids, places).desk, s.snapshots, graph)
    requires Covered(s, graph, pids, ShrinkTargets(places)) && forall p | p in places && p.ViewResize() :: p.hwnd in views
    ensures var s' := PosPass(s, graph, pids, places);
            Kept(s.desk, s'.desk, s.snapshots, graph, sh, views) && s'.snapshots == s.snapshots
    decreases places
  {
    if places == [] {
      CallKept(s.desk, s.desk, s.snapshots, graph, sh, views);
    } else {
      var p, rest, s' := places[0], places[1..], PosPass(s, graph, pids, places);
      var s1 := PosOne(s, graph, pids, p);
      PosFollows(s1, graph, pids, rest);
      UndisturbedSplits(s.desk, s1.desk, s'.desk, s.snapshots, s.snapshots, graph);
      assert p in places;
      PosOneSafe(s, graph, pids, p, sh, views);
      CoveredLater(s, s1.desk, graph, pids, ShrinkTargets(places), ShrinkTargets(rest));
      PosPassSafe(s1, graph, pids, rest, sh.Past(s.desk.fate, s.desk.looks, s1.desk.looks), views);
      KeptComposes(s.desk, s1.desk, s'.desk, s.snapshots, s.snapshots, graph, sh, views);
    }
  }

  lemma {:induction false} CloseFollows(d: Desk, graph: WindowGraph, pids: set<Pid>, closes: seq<Hwnd>)
    ensures Follows(d, ClosePass(d, graph, pids, closes))
    decreases closes
  {
    if closes != [] {
      var d1 := d.Looked(closes[0]);
      if !Verdict(d1, graph, pids, closes[0]) {
        CloseFollows(d1, graph, pids, closes[1..]);
      } else if !d1.fate.late(d1.clock) {
        CloseFollows(d1.SendClose(closes[0]), graph, pids, closes[1..]);
      }
    }
  }

  lemma {:induction false} ClosePassSafe(d: Desk, snapshots: Snapshots, graph: WindowGraph, pids: set<Pid>, closes: seq<Hwnd>, sh: Shadow, views: set<Hwnd>)
    requires Safe(d.windows, snapshots, sh) && GraphKnows(d.windows, graph, sh, views)
    requires Undisturbed(d, ClosePass(d, graph, pids, closes), snapshots, graph)
    ensures Kept(d, ClosePass(d, graph, pids, closes), snapshots, graph, sh, views)
    decreases closes
  {
    if closes == [] {
      CallKept(d, d, snapshots, graph, sh, views);
    } else {
      var h, rest, d' := closes[0], closes[1..], ClosePass(d, graph, pids, closes);
      var d1 := d.Looked(h);
      var d2 := if Verdict(d1, graph, pids, h) && !d1.fate.late(d1.clock) then d1.SendClose(h) else d1;
      var sh1 := sh.Past(d.fate, d.looks, d1.looks);
      if !(Verdict(d1, graph, pids, h) && d1.fate.late(d1.clock)) {
        CloseFollows(d2, graph, pids, rest);
      }
      UndisturbedSplits(d, d1, d', snapshots, snapshots, graph);
      LookKept(d, h, snapshots, graph, sh, views);
      CallKept(d1, d2, snapshots, graph, sh1, views);
      if !(Verdict(d1, graph, pids, h) && d1.fate.late(d1.clock)) {
        ClosePassSafe(d2, snapshots, graph, pids, rest, sh1, views);
        KeptComposes(d1, d2, d', snapshots, snapshots, graph, sh1, views);
      }
      KeptComposes(d, d1, d', snapshots, snapshots, graph, sh, views);
    }
  }

  /** The snapshots of windows that are gone protect nothing. */
  lemma RetainedSafe(d: Desk, snapshots: Snapshots, sh: Shadow)
    requires Safe(d.windows, snapshots, sh)
    ensures Safe(d.windows, Retained(d, snapshots), sh)
  {
    forall h | h in d.windows ensures h in sh.orig && Sound(h, d.windows[h], sh.orig[h], Retained(d, snapshots), h in sh.touched) {
      assert Sound(h, d.windows[h], sh.orig[h], snapshots, h in sh.touched);
    }
  }

  /** The shadow while a plan is applied: its main views are resized on purpose. */
  function Resizing(sh: Shadow, plan: Plan): Shadow { sh.(touched := sh.touched + ViewTargets(plan)) }

  lemma ResizingSafe(d: Desk, snapshots: Snapshots, graph: WindowGraph, plan: Plan, sh: Shadow)
    requires Safe(d.windows, snapshots, sh) && GraphFits(d, graph) && PlanFits(graph, plan)
    ensures Safe(d.windows, snapshots, Resizing(sh, plan)) && GraphKnows(d.windows, graph, Resizing(sh, plan), ViewTargets(plan))
  {
    var t := Resizing(sh, plan);
    forall h | h in d.windows ensures h in t.orig && Sound(h, d.windows[h], t.orig[h], snapshots, h in t.touched) {
      assert Sound(h, d.windows[h], sh.orig[h], snapshots, h in sh.touched);
    }
    forall h | h in graph.nodes && h in d.windows && Empty(sh.orig[h].rect) && h !in t.touched ensures AlreadyEmpty(graph.nodes[h]) {
      assert Sound(h, d.windows[h], sh.orig[h], snapshots, h in sh.touched);
    }
  }

  /** What the four loops of one apply do in turn. */
  function AfterCapture(s: Held, graph: WindowGraph, pids: set<Pid>, plan: Plan): Held {
    CapturePass(s, graph, pids, plan.hide + ShrinkTargets(plan.setPos))
  }

  function AfterHide(s: Held, graph: WindowGraph, pids: set<Pid>, plan: Plan): Held {
    var s1 := AfterCapture(s, graph, pids, plan);
    s1.(desk := HidePass(s1.desk, graph, pids, plan.hide))
  }

  function AfterPlace(s: Held, graph: WindowGraph, pids: set<Pid>, plan: Plan): Held {
    PosPass(AfterHide(s, graph, pids, plan), graph, pids, plan.setPos)
  }

  function AfterClose(s: Held, graph: WindowGraph, pids: set<Pid>, plan: Plan): Held {
    var s3 := AfterPlace(s, graph, pids, plan);
    s3.(desk := ClosePass(s3.desk, graph, pids, plan.close))
  }

  /** A plan with close requests ends with the snapshots of those captured windows that are still there, and
      no other; one without forgets nothing. */
  lemma ClosesForgetTheGone(s: Held, graph: WindowGraph, pids: set<Pid>, plan: Plan, id: WindowIdentity)
    requires s.desk.live
    ensures var s3, s' := AfterPlace(s, graph, pids, plan), ApplyPlan(s, graph, pids, plan);
            && (id in s'.snapshots <==> id in s3.snapshots && (plan.close != [] ==> s'.desk.Matches(id)))
            && (id in s'.snapshots ==> s'.snapshots[id] == s3.snapshots[id])
  {
  }

  lemma PhasesFollow(s: Held, graph: WindowGraph, pids: set<Pid>, plan: Plan)
    ensures Follows(s.desk, AfterCapture(s, graph, pids, plan).desk)
    ensures Follows(AfterCapture(s, graph, pids, plan).desk, AfterHide(s, graph, pids, plan).desk)
    ensures Follows(AfterHide(s, graph, pids, plan).desk, AfterPlace(s, graph, pids, plan).desk)
    ensures Follows(AfterPlace(s, graph, pids, plan).desk, AfterClose(s, graph, pids, plan).desk)
  {
    CaptureFollows(s, graph, pids, plan.hide + ShrinkTargets(plan.setPos));
    HideFollows(AfterCapture(s, graph, pids, plan).desk, graph, pids, plan.hide);
    PosFollows(AfterHide(s, graph, pids, plan), graph, pids, plan.setPos);
    CloseFollows(AfterPlace(s, graph, pids, plan).desk, graph, pids, plan.close);
  }

  /** The first two loops: whatever is hidden was captured. */
  lemma CaptureAndHideSafe(s: Held, graph: WindowGraph, pids: set<Pid>, plan: Plan, sh: Shadow, views: set<Hwnd>)
    requires Safe(s.desk.windows, s.snapshots, sh) && GraphKnows(s.desk.windows, graph, sh, views)
    requires Undisturbed(s.desk, AfterHide(s, graph, pids, plan).desk, s.snapshots, graph)
    ensures var s2 := AfterHide(s, graph, pids, plan);
            && Kept(s.desk, s2.desk, s2.snapshots, graph, sh, views)
            && s.snapshots.Keys <= s2.snapshots.Keys <= s.snapshots.Keys + IdentitiesOf(graph)
            && Covered(s2, graph, pids, ShrinkTargets(plan.setPos))
  {
    var targets := plan.hide + ShrinkTargets(plan.setPos);
    var s1, s2 := AfterCapture(s, graph, pids, plan), AfterHide(s, graph, pids, plan);
    PhasesFollow(s, graph, pids, plan);
    UndisturbedSplits(s.desk, s1.desk, s2.desk, s.snapshots, s.snapshots, graph);
    CapturePassSafe(s, graph, pids, targets, sh, views);
    UndisturbedSplits(s.desk, s1.desk, s2.desk, s.snapshots, s1.snapshots, graph);
    CoveredLater(s1, s1.desk, graph, pids, targets, plan.hide);
    HidePassSafe(s1, graph, pids, plan.hide, sh.Past(s.desk.fate, s.desk.looks, s1.desk.looks), views);
    KeptComposes(s.desk, s1.desk, s2.desk, s1.snapshots, s1.snapshots, graph, sh, views);
    CoveredLater(s1, s2.desk, graph, pids, targets, ShrinkTargets(plan.setPos));
  }

  /** One plan, whatever fails in it, keeps the invariant. */
  lemma ApplyPlanSafe(s: Held, graph: WindowGraph, pids: set<Pid>, plan: Plan, sh: Shadow)
    requires Safe(s.desk.windows, s.snapshots, sh) && GraphFits(s.desk, graph) && PlanFits(graph, plan)
    requires Undisturbed(s.desk, ApplyPlan(s, graph, pids, plan).desk, s.snapshots, graph)
    ensures var s' := ApplyPlan(s, graph, pids, plan);
            && Safe(s'.desk.windows, s'.snapshots, Resizing(sh, plan).Past(s.desk.fate, s.desk.looks, s'.desk.looks))
            && Follows(s.desk, s'.desk)
            && s'.snapshots.Keys <= s.snapshots.Keys + IdentitiesOf(graph)
  {
    var t, views := Resizing(sh, plan), ViewTargets(plan);
    ResizingSafe(s.desk, s.snapshots, graph, plan, sh);
    if s.desk.live {
      PhasesFollow(s, graph, pids, plan);
      var s2, s3, s4 := AfterHide(s, graph, pids, plan), AfterPlace(s, graph, pids, plan), AfterClose(s, graph, pids, plan);
      UndisturbedSplits(s.desk, s2.desk, s4.desk, s.snapshots, s.snapshots, graph);
      CaptureAndHideSafe(s, graph, pids, plan, t, views);
      UndisturbedSplits(s.desk, s2.desk, s4.desk, s.snapshots, s2.snapshots, graph);
      UndisturbedSplits(s2.desk, s3.desk, s4.desk, s2.snapshots, s2.snapshots, graph);
      PlaceAndCloseSafe(s2, graph, pids, plan, t.Past(s.desk.fate, s.desk.looks, s2.desk.looks), views);
      KeptComposes(s.desk, s2.desk, s4.desk, s2.snapshots, s2.snapshots, graph, t, views);
      RetainedSafe(s4.desk, s4.snapshots, t.Past(s.desk.fate, s.desk.looks, s4.desk.looks));
    }
  }

  /** The last two loops: nothing is captured any more, only used. */
  lemma PlaceAndCloseSafe(s: Held, graph: WindowGraph, pids: set<Pid>, plan: Plan, sh: Shadow, views: set<Hwnd>)
    requires Safe(s.desk.windows, s.snapshots, sh) && GraphKnows(s.desk.windows, graph, sh, views)
    requires Covered(s, graph, pids, ShrinkTargets(plan.setPos)) && ViewTargets(plan) <= views
    requires Undisturbed(s.desk, ClosePass(PosPass(s, graph, pids, plan.setPos).desk, graph, pids, plan.close), s.snapshots, graph)
    ensures var s1 := PosPass(s, graph, pids, plan.setPos);
            Kept(s.desk, ClosePass(s1.desk, graph, pids, plan.close), s.snapshots, graph, sh, views) && s1.snapshots == s.snapshots
  {
    var s1 := PosPass(s, graph, pids, plan.setPos);
    var d2 := ClosePass(s1.desk, graph, pids, plan.close);
    PosFollows(s, graph, pids, plan.setPos);
    CloseFollows(s1.desk, graph, pids, plan.close);
    UndisturbedSplits(s.desk, s1.desk, d2, s.snapshots, s.snapshots, graph);
    PosPassSafe(s, graph, pids, plan.setPos, sh, views);
    ClosePassSafe(s1.desk, s.snapshots, graph, pids, plan.close, sh.Past(s.desk.fate, s.desk.looks, s1.desk.looks), views);
    KeptComposes(s.desk, s1.desk, d2, s.snapshots, s.snapshots, graph, sh, views);
  }
}

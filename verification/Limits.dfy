/** Exactly when suppression can be undone: what happens when a premise of `UndoRuns` does not hold. */
module Limits {
  import opened Model
  import opened Desktop
  import opened Engine
  import opened Undo
  import opened UndoRuns
  import opened Effects

  /** Zero-size a window and restore it with every call going through: its rectangle comes back if and
      only if it was regular beforehand. A window one pixel wide and zero high, say, never comes back. */
  lemma ZeroSizeUndoneIffRegular(d: Desk, graph: WindowGraph, pids: set<Pid>, h: Hwnd)
    requires Calm(d.fate) && GraphFits(d, graph) && Verdict(d, graph, pids, h)
    ensures var s := PosOne(Held(d, map[]), graph, pids, Pos(h, 0, 0, 0, 0));
            var d' := RestoreSnapshot(s.desk, CaptureSnapshot(d, graph.nodes[h])).0;
            h in d'.windows && (d'.windows[h].rect == d.windows[h].rect <==> Regular(d.windows[h].rect))
  {
    var s := PosOne(Held(d, map[]), graph, pids, Pos(h, 0, 0, 0, 0));
    CalmLook(d, h);
    CalmDrift(d.Looked(h));
    PosOneCalm(Held(d, map[]), graph, pids, Pos(h, 0, 0, 0, 0));
    var snap := CaptureSnapshot(d, graph.nodes[h]);
    assert snap.rect == d.windows[h].rect;
    var shrunk := PlacedOnce(d.windows[h].rect, graph.nodes[h], h, Pos(h, 0, 0, 0, 0));
    assert s.desk.windows[h].rect == shrunk;
    RestoredRect(s.desk, snap);
  }

  /** Such a window: its rectangle is lost although every call went through. */
  lemma FlatWindowIsLost(d: Desk, graph: WindowGraph, pids: set<Pid>, h: Hwnd)
    requires Calm(d.fate) && GraphFits(d, graph) && Verdict(d, graph, pids, h)
    requires d.windows[h].rect == Some(Rect(0, 0, 1, 0))
    ensures var s := PosOne(Held(d, map[]), graph, pids, Pos(h, 0, 0, 0, 0));
            var d' := RestoreSnapshot(s.desk, CaptureSnapshot(d, graph.nodes[h])).0;
            h in d'.windows && d'.windows[h].rect != Some(Rect(0, 0, 1, 0))
  {
    ZeroSizeUndoneIffRegular(d, graph, pids, h);
  }

  lemma RestoredRect(d: Desk, snap: Snapshot)
    requires Calm(d.fate) && d.Matches(snap.identity) && snap.identity.hwnd !in d.hung
    ensures var h := snap.identity.hwnd;
            var d' := RestoreSnapshot(d, snap).0;
            h in d'.windows && d'.windows[h].rect == Regrown(d.windows[h], snap)
  {
    CalmDrift(d);
    if Resizable(snap.rect) {
      var r := snap.rect.value;
      CalmDrift(d.SetWindowPos(snap.identity.hwnd, r.left, r.top, r.Width(), r.Height(), !snap.topLevel).0);
    }
  }

  lemma CaptureOneCalm(s: Held, graph: WindowGraph, pids: set<Pid>, h: Hwnd)
    requires Calm(s.desk.fate)
    ensures var s1 := CapturePass(s, graph, pids, [h]);
            && s1.desk == s.desk.Looked(h) && s1.desk.windows == s.desk.windows
            && s1.snapshots == if Verdict(s.desk, graph, pids, h) then Remember(s.(desk := s1.desk), graph, h).snapshots else s.snapshots
  {
    CalmLook(s.desk, h);
    var s1 := s.(desk := s.desk.Looked(h));
    var s2 := if Verdict(s1.desk, graph, pids, h) then Remember(s1, graph, h) else s1;
    assert [h][1..] == [] && CapturePass(s2, graph, pids, []) == s2;
  }

  lemma CapturedIsSafe(s: Held, graph: WindowGraph, pids: set<Pid>, h: Hwnd, sh: Shadow)
    requires Calm(s.desk.fate) && Safe(s.desk.windows, s.snapshots, sh) && GraphFits(s.desk, graph) && Verdict(s.desk, graph, pids, h)
    ensures var s1 := CapturePass(s, graph, pids, [h]);
            Safe(s1.desk.windows, s1.snapshots, sh) && graph.nodes[h].Identity() in s1.snapshots
  {
    CaptureOneCalm(s, graph, pids, h);
    CalmLook(s.desk, h);
    forall g | g in graph.nodes && g in s.desk.windows && g in sh.orig && Empty(sh.orig[g].rect) && g !in sh.touched
      ensures AlreadyEmpty(graph.nodes[g])
    {
      assert Sound(g, s.desk.windows[g], sh.orig[g], s.snapshots, g in sh.touched);
    }
    RememberSafe(s.(desk := s.desk.Looked(h)), graph, pids, h, sh, {});
  }

  lemma HideOneCalm(d: Desk, graph: WindowGraph, pids: set<Pid>, h: Hwnd)
    requires Calm(d.fate) && Verdict(d, graph, pids, h) && d.HasVisibleStyle(h)
    ensures d.Looked(h).windows == d.windows
    ensures HidePass(d, graph, pids, [h]) == d.Looked(h).ShowWindow(h, false).0
  {
    CalmLook(d, h);
    assert [h][1..] == [];
    assert HidePass(d, graph, pids, [h]) == HidePass(HideOne(d, graph, pids, h), graph, pids, []);
  }

  /** The hide pass does not capture again. If the answer to the check may change between the two
      passes (a hung window recovers, say), the window stays restorable if and only if the check
      already succeeded when its snapshot was due. */
  lemma RecoveryBetweenPassesIsFatal(s: Held, graph: WindowGraph, pids: set<Pid>, h: Hwnd, hung: set<Hwnd>, live: bool,
                                     sh: Shadow)
    requires Calm(s.desk.fate) && Safe(s.desk.windows, s.snapshots, sh) && GraphFits(s.desk, graph)
    requires var later := s.desk.(hung := hung, live := live); Verdict(later, graph, pids, h) && later.HasVisibleStyle(h)
    requires graph.nodes[h].Identity() !in s.snapshots
    ensures var s1 := CapturePass(s, graph, pids, [h]);
            var d2 := HidePass(s1.desk.(hung := hung, live := live), graph, pids, [h]);
            Safe(d2.windows, s1.snapshots, sh) <==> Verdict(s.desk, graph, pids, h)
  {
    CaptureOneCalm(s, graph, pids, h);
    var s1 := CapturePass(s, graph, pids, [h]);
    var later := s1.desk.(hung := hung, live := live);
    HideCalm(later, graph, pids, [h]);
    assert !HidePass(later, graph, pids, [h]).windows[h].visible;
    assert Sound(h, s.desk.windows[h], sh.orig[h], s.snapshots, h in sh.touched);
    if Verdict(s.desk, graph, pids, h) {
      CapturedIsSafe(s, graph, pids, h, sh);
      HideOneCalm(later, graph, pids, h);
      HideSafe(later.Looked(h), s1.snapshots, h, sh);
    }
  }

  /** A window captured while hidden, then shown by the application and hidden again by the engine:
      the drain succeeds and leaves it hidden. It comes back if and only if it was visible when captured. */
  lemma ShownWhileHeld(d: Desk, snap: Snapshot)
    requires Calm(d.fate) && d.Matches(snap.identity) && snap.identity.hwnd !in d.hung
    requires d.HasVisibleStyle(snap.identity.hwnd)
    ensures var h := snap.identity.hwnd;
            var (d', ok) := RestoreSnapshot(d.ShowWindow(h, false).0, snap);
            ok && h in d'.windows && (d'.windows[h].visible <==> snap.wasVisible)
  {
    var h := snap.identity.hwnd;
    CalmDrift(d);
    var d1 := d.ShowWindow(h, false).0;
    CalmDrift(d1);
    if Resizable(snap.rect) {
      var r := snap.rect.value;
      CalmDrift(d1.SetWindowPos(h, r.left, r.top, r.Width(), r.Height(), !snap.topLevel).0);
    }
  }

  // ---------------------------------------------------------------- the application acts on a held window

  lemma CalmRestore(d: Desk, snap: Snapshot)
    requires Calm(d.fate) && d.Matches(snap.identity) && snap.identity.hwnd !in d.hung
    ensures var h := snap.identity.hwnd;
            var (d', ok) := RestoreSnapshot(d, snap);
            ok && h in d'.windows && d'.windows[h] == Restored(d.windows[h], snap)
  {
    RestoreSnapshotShape(d, snap);
    CalmDrift(d);
    if Resizable(snap.rect) {
      var r := snap.rect.value;
      CalmDrift(d.SetWindowPos(snap.identity.hwnd, r.left, r.top, r.Width(), r.Height(), !snap.topLevel).0);
    }
  }

  /** A held window, its shadow and the snapshot, just before the application acts and a drain restores it. */
  predicate HeldWindow(d: Desk, h: Hwnd, o: WindowRec, snap: Snapshot) {
    && h == snap.identity.hwnd && d.Matches(snap.identity) && h !in d.hung
    && Regular(o.rect) && Suppressed(d.windows[h], o, snap, false)
  }

  /** The application acts on the held window, and then it is restored. */
  function RestoredAfter(d: Desk, call: AppCall, snap: Snapshot): (Desk, bool)
    requires snap.identity.hwnd in d.windows
  {
    var h := snap.identity.hwnd;
    RestoreSnapshot(d.(windows := d.windows[h := Acted(d.windows[h], call)]), snap)
  }

  /** Shown or hidden while held, the restored window is as the application wants it if and only if it was
      not a visible window that the application hides. */
  lemma ShownOrHiddenWhileHeld(d: Desk, h: Hwnd, o: WindowRec, snap: Snapshot, v: bool)
    requires Calm(d.fate) && HeldWindow(d, h, o, snap)
    ensures var (d', ok) := RestoredAfter(d, SetVisible(v), snap);
            ok && h in d'.windows && (Untouched(d'.windows[h], Acted(o, SetVisible(v)), false) <==> v || !o.visible)
  {
    var now := Acted(d.windows[h], SetVisible(v));
    CalmRestore(d.(windows := d.windows[h := now]), snap);
    HarmlessGeometry(d.windows[h], o, snap);
  }

  /** The geometry of a held window comes back. */
  lemma HarmlessGeometry(now: WindowRec, o: WindowRec, snap: Snapshot)
    requires Regular(o.rect) && Suppressed(now, o, snap, false)
    ensures Regrown(now, snap) == o.rect
  {
    RestoredUntouched(now, o, snap, false);
  }

  /** Moved while held, it is where the application put it if and only if it is a child window, has no
      area, or was not moved at all. */
  lemma MovedWhileHeld(d: Desk, h: Hwnd, o: WindowRec, snap: Snapshot, x: int, y: int)
    requires Calm(d.fate) && HeldWindow(d, h, o, snap)
    ensures var (d', ok) := RestoredAfter(d, MoveTo(x, y), snap);
            ok && h in d'.windows && (Untouched(d'.windows[h], Acted(o, MoveTo(x, y)), false) <==>
              (o.parent != 0 || Empty(o.rect) || (x == o.rect.value.left && y == o.rect.value.top)))
  {
    CalmRestore(d.(windows := d.windows[h := Acted(d.windows[h], MoveTo(x, y))]), snap);
    HarmlessGeometry(d.windows[h], o, snap);
  }

  /** Resized while held, it has the size the application gave it if and only if it had no area before or
      that size already. */
  lemma ResizedWhileHeld(d: Desk, h: Hwnd, o: WindowRec, snap: Snapshot, width: int, height: int)
    requires Calm(d.fate) && HeldWindow(d, h, o, snap)
    ensures var (d', ok) := RestoredAfter(d, SetSize(width, height), snap);
            var r := o.rect.value;
            ok && h in d'.windows && (Untouched(d'.windows[h], Acted(o, SetSize(width, height)), false) <==>
              (Empty(o.rect) || (width == r.right - r.left && height == r.bottom - r.top)))
  {
    CalmRestore(d.(windows := d.windows[h := Acted(d.windows[h], SetSize(width, height))]), snap);
    HarmlessGeometry(d.windows[h], o, snap);
  }

  /** An identity reused while held: the drain leaves the new window as it is if and only if it may be
      visible or the old one was not, and it has the old one's size (and position, for a top-level snapshot)
      or the old one had no area. */
  lemma ReusedWhileHeld(d: Desk, h: Hwnd, o: WindowRec, snap: Snapshot, rec: WindowRec)
    requires Calm(d.fate) && HeldWindow(d, h, o, snap)
    requires rec.IdentityAs(h) == snap.identity && rec.rect.Some?
    ensures var (d', ok) := RestoreSnapshot(d.(windows := d.windows[h := rec]), snap);
            ok && h in d'.windows && (Untouched(d'.windows[h], rec, false) <==>
              && (o.visible ==> rec.visible)
              && (Empty(o.rect) || (SameSize(rec.rect, o.rect) && (o.parent == 0 ==> rec.rect == o.rect))))
  {
    CalmRestore(d.(windows := d.windows[h := rec]), snap);
  }
}

/** No foreign window is touched: every mutating call, and every snapshot, rests on a check made just
    before it, whatever appears, recovers, hangs or dies in between. */
module Guards {
  import opened Model
  import opened Desktop
  import opened Engine
  import Undo

  /** What the check must have seen: switched on, a responding window of a watched process, and the very
      window the graph describes. */
  predicate Passes(seen: Sighting, graph: WindowGraph, pids: set<Pid>, h: Hwnd) {
    && seen.live && !seen.hung && seen.rec.Some?
    && h in graph.nodes
    && seen.rec.value.IdentityAs(h) == graph.nodes[h].Identity()
    && seen.rec.value.pid in pids
  }

  /** The call at `a` directly follows a check of its own target that passed. */
  predicate GuardedAt(log: seq<ApiCall>, a: nat, graph: WindowGraph, pids: set<Pid>, targets: set<Hwnd>)
    requires a < |log|
  {
    || log[a].kind.Look?
    || (a > 0 && log[a - 1].kind.Look? && log[a - 1].target == log[a].target
        && Passes(log[a - 1].kind.seen, graph, pids, log[a].target)
        && (log[a].kind.WmClose? ==> !log[a - 1].kind.seen.late)
        && (log[a].kind.SwHide? ==> log[a - 1].kind.seen.rec.value.visible)
        && log[a].target in targets)
  }

  predicate Guarded(log: seq<ApiCall>, graph: WindowGraph, pids: set<Pid>, targets: set<Hwnd>) {
    forall a: nat | a < |log| :: GuardedAt(log, a, graph, pids, targets)
  }

  predicate Called(log: seq<ApiCall>, h: Hwnd) {
    exists a :: 0 <= a < |log| && log[a].target == h && !log[a].kind.Look? && log[a].succeeded
  }

  ghost predicate Appeared(fate: Fate, lo: nat, hi: nat, h: Hwnd) { exists n :: lo <= n < hi && h in fate.appears(n) }

  /** The entries a stretch of work added to the log. */
  function Added(d: Desk, d': Desk): seq<ApiCall>
    requires |d.log| <= |d'.log|
  {
    d'.log[|d.log|..]
  }

  /** From `d` to `d'` every call was guarded, and a window differs only if it appeared or was called. */
  ghost predicate Careful(d: Desk, d': Desk, graph: WindowGraph, pids: set<Pid>, targets: set<Hwnd>) {
    && Undo.Follows(d, d')
    && d.log <= d'.log
    && Guarded(Added(d, d'), graph, pids, targets)
    && forall h | h in d'.windows :: Accounted(d, d', h)
  }

  ghost predicate Accounted(d: Desk, d': Desk, h: Hwnd)
    requires d.log <= d'.log && h in d'.windows
  {
    || (h in d.windows && d'.windows[h] == d.windows[h])
    || Appeared(d.fate, d.looks, d'.looks, h)
    || Called(Added(d, d'), h)
  }

  lemma GuardedConcat(a: seq<ApiCall>, b: seq<ApiCall>, graph: WindowGraph, pids: set<Pid>, targets: set<Hwnd>)
    requires Guarded(a, graph, pids, targets) && Guarded(b, graph, pids, targets)
    ensures Guarded(a + b, graph, pids, targets)
  {
    var all := a + b;
    forall i: nat | i < |all| ensures GuardedAt(all, i, graph, pids, targets) {
      if i < |a| {
        assert GuardedAt(a, i, graph, pids, targets);
      } else {
        assert GuardedAt(b, i - |a|, graph, pids, targets);
      }
    }
  }

  lemma CalledConcat(a: seq<ApiCall>, b: seq<ApiCall>, h: Hwnd)
    requires Called(a, h) || Called(b, h)
    ensures Called(a + b, h)
  {
    if Called(a, h) {
      var i :| 0 <= i < |a| && a[i].target == h && !a[i].kind.Look? && a[i].succeeded;
      assert (a + b)[i] == a[i];
    } else {
      var i :| 0 <= i < |b| && b[i].target == h && !b[i].kind.Look? && b[i].succeeded;
      assert (a + b)[|a| + i] == b[i];
    }
  }

  lemma AddedConcat(d: Desk, d1: Desk, d2: Desk)
    requires d.log <= d1.log <= d2.log
    ensures Added(d, d2) == Added(d, d1) + Added(d1, d2)
  {
  }

  lemma CarefulComposes(d: Desk, d1: Desk, d2: Desk, graph: WindowGraph, pids: set<Pid>, t: set<Hwnd>)
    requires Careful(d, d1, graph, pids, t) && Careful(d1, d2, graph, pids, t)
    ensures Careful(d, d2, graph, pids, t)
  {
    AddedConcat(d, d1, d2);
    GuardedConcat(Added(d, d1), Added(d1, d2), graph, pids, t);
    forall h | h in d2.windows ensures Accounted(d, d2, h) {
      assert Accounted(d1, d2, h);
      if h in d1.windows {
        assert Accounted(d, d1, h);
      }
      if Called(Added(d1, d2), h) || Called(Added(d, d1), h) {
        CalledConcat(Added(d, d1), Added(d1, d2), h);
      }
    }
  }

  lemma StillCareful(d: Desk, graph: WindowGraph, pids: set<Pid>, t: set<Hwnd>)
    ensures Careful(d, d, graph, pids, t)
  {
  }

  lemma LookCareful(d: Desk, h: Hwnd, graph: WindowGraph, pids: set<Pid>, t: set<Hwnd>)
    ensures var d1 := d.Looked(h);
            && Careful(d, d1, graph, pids, t)
            && Added(d, d1) == [ApiCall(h, Look(d1.SightingOf(h)), true)]
            && (graph.WellKeyed() && Verdict(d1, graph, pids, h) ==> Passes(d1.SightingOf(h), graph, pids, h))
  {
    var d1 := d.Looked(h);
    assert Added(d, d1) == [ApiCall(h, Look(d1.SightingOf(h)), true)];
    forall g | g in d1.windows ensures Accounted(d, d1, g) {
      if g in d.fate.appears(d.looks) {
        assert Appeared(d.fate, d.looks, d1.looks, g);
      }
    }
  }

  /** A check and the call it guards. `d2` is the desktop after the call. */
  lemma CallCareful(d: Desk, d2: Desk, h: Hwnd, call: ApiCall, graph: WindowGraph, pids: set<Pid>, t: set<Hwnd>)
    requires graph.WellKeyed() && Verdict(d.Looked(h), graph, pids, h) && h in t
    requires call.target == h && !call.kind.Look? && d2.log == d.Looked(h).log + [call]
    requires call.kind.WmClose? ==> !d.fate.late(d.Looked(h).clock)
    requires call.kind.SwHide? ==> d.Looked(h).HasVisibleStyle(h)
    requires d2.fate == d.fate && d2.looks == d.looks + 1
    requires forall g | g in d2.windows :: g in d.Looked(h).windows && (d2.windows[g] == d.Looked(h).windows[g] || (g == h && call.succeeded))
    ensures Careful(d, d2, graph, pids, t)
  {
    var d1 := d.Looked(h);
    LookCareful(d, h, graph, pids, t);
    var log := Added(d, d2);
    assert log == [ApiCall(h, Look(d1.SightingOf(h)), true), call];
    forall a: nat | a < |log| ensures GuardedAt(log, a, graph, pids, t) {
    }
    forall g | g in d2.windows ensures Accounted(d, d2, g) {
      assert Accounted(d, d1, g);
      if d2.windows[g] != d1.windows[g] {
        assert log[1] == call;
        assert Called(log, g);
      }
    }
  }

  // ---------------------------------------------------------------- the passes

  /** The snapshot a check justifies: what it saw, and where the graph says the window hangs. */
  function SnapshotOf(rec: WindowRec, node: WindowNode): Snapshot {
    Snapshot(node.Identity(), rec.visible, if rec.rect.Some? then rec.rect else node.rect, node.structuralParent.None?)
  }

  predicate TakenAt(log: seq<ApiCall>, a: int, id: WindowIdentity, snap: Snapshot, graph: WindowGraph, pids: set<Pid>) {
    && 0 <= a < |log| && log[a].kind.Look? && log[a].target == id.hwnd
    && Passes(log[a].kind.seen, graph, pids, id.hwnd)
    && log[a].kind.seen.rec.value.IdentityAs(id.hwnd) == id
    && snap == SnapshotOf(log[a].kind.seen.rec.value, graph.nodes[id.hwnd])
  }

  predicate Taken(log: seq<ApiCall>, id: WindowIdentity, snap: Snapshot, graph: WindowGraph, pids: set<Pid>) {
    exists a :: 0 <= a < |log| && TakenAt(log, a, id, snap, graph, pids)
  }

  /** Every snapshot is an old one, or was taken at a check that passed. */
  predicate Captured(before: Snapshots, after: Snapshots, log: seq<ApiCall>, graph: WindowGraph, pids: set<Pid>) {
    forall id | id in after :: if id in before then after[id] == before[id] else Taken(log, id, after[id], graph, pids)
  }

  lemma TakenConcat(a: seq<ApiCall>, b: seq<ApiCall>, id: WindowIdentity, snap: Snapshot, graph: WindowGraph, pids: set<Pid>)
    requires Taken(a, id, snap, graph, pids) || Taken(b, id, snap, graph, pids)
    ensures Taken(a + b, id, snap, graph, pids)
  {
    if Taken(a, id, snap, graph, pids) {
      var i :| 0 <= i < |a| && TakenAt(a, i, id, snap, graph, pids);
      assert TakenAt(a + b, i, id, snap, graph, pids);
    } else {
      var i :| 0 <= i < |b| && TakenAt(b, i, id, snap, graph, pids);
      assert TakenAt(a + b, |a| + i, id, snap, graph, pids);
    }
  }

  lemma CapturedComposes(s: Snapshots, s1: Snapshots, s2: Snapshots, a: seq<ApiCall>, b: seq<ApiCall>, graph: WindowGraph, pids: set<Pid>)
    requires Captured(s, s1, a, graph, pids) && Captured(s1, s2, b, graph, pids) && s.Keys <= s1.Keys
    ensures Captured(s, s2, a + b, graph, pids)
  {
    forall id | id in s2 ensures if id in s then s2[id] == s[id] else Taken(a + b, id, s2[id], graph, pids) {
      if id !in s {
        TakenConcat(a, b, id, s2[id], graph, pids);
      }
    }
  }

  /** One step of the capture or place loop: careful, and what it captures it has just checked. */
  ghost predicate Watchful(s: Held, s': Held, graph: WindowGraph, pids: set<Pid>, targets: set<Hwnd>) {
    && Careful(s.desk, s'.desk, graph, pids, targets)
    && Captured(s.snapshots, s'.snapshots, Added(s.desk, s'.desk), graph, pids)
    && s.snapshots.Keys <= s'.snapshots.Keys
  }

  lemma WatchfulComposes(s: Held, s1: Held, s2: Held, graph: WindowGraph, pids: set<Pid>, t: set<Hwnd>)
    requires Watchful(s, s1, graph, pids, t) && Watchful(s1, s2, graph, pids, t)
    ensures Watchful(s, s2, graph, pids, t)
  {
    CarefulComposes(s.desk, s1.desk, s2.desk, graph, pids, t);
    AddedConcat(s.desk, s1.desk, s2.desk);
    CapturedComposes(s.snapshots, s1.snapshots, s2.snapshots, Added(s.desk, s1.desk), Added(s1.desk, s2.desk), graph, pids);
  }

  /** Capturing right after the check. */
  lemma RememberTaken(d: Desk, snapshots: Snapshots, graph: WindowGraph, pids: set<Pid>, h: Hwnd)
    requires graph.WellKeyed() && Verdict(d.Looked(h), graph, pids, h)
    ensures var s1 := Remember(Held(d.Looked(h), snapshots), graph, h);
            && s1.desk == d.Looked(h) && snapshots.Keys <= s1.snapshots.Keys
            && Captured(snapshots, s1.snapshots, Added(d, d.Looked(h)), graph, pids)
  {
    LookCareful(d, h, graph, pids, {});
    var d1 := d.Looked(h);
    var id, s1 := graph.nodes[h].Identity(), Remember(Held(d1, snapshots), graph, h);
    if id !in snapshots {
      assert TakenAt(Added(d, d1), 0, id, s1.snapshots[id], graph, pids);
    }
  }

  lemma {:induction false} CaptureWatchful(s: Held, graph: WindowGraph, pids: set<Pid>, targets: seq<Hwnd>, t: set<Hwnd>)
    requires graph.WellKeyed()
    ensures Watchful(s, CapturePass(s, graph, pids, targets), graph, pids, t)
    decreases targets
  {
    if targets == [] {
      StillCareful(s.desk, graph, pids, t);
    } else {
      var h := targets[0];
      var s1 := s.(desk := s.desk.Looked(h));
      var s2 := if Verdict(s1.desk, graph, pids, h) then Remember(s1, graph, h) else s1;
      LookCareful(s.desk, h, graph, pids, t);
      if Verdict(s1.desk, graph, pids, h) {
        RememberTaken(s.desk, s.snapshots, graph, pids, h);
      }
      assert Watchful(s, s2, graph, pids, t);
      CaptureWatchful(s2, graph, pids, targets[1..], t);
      WatchfulComposes(s, s2, CapturePass(s2, graph, pids, targets[1..]), graph, pids, t);
    }
  }

  lemma HideOneCareful(d: Desk, graph: WindowGraph, pids: set<Pid>, h: Hwnd, t: set<Hwnd>)
    requires graph.WellKeyed() && h in t
    ensures Careful(d, HideOne(d, graph, pids, h), graph, pids, t)
  {
    var d1 := d.Looked(h);
    LookCareful(d, h, graph, pids, t);
    if Verdict(d1, graph, pids, h) && d1.HasVisibleStyle(h) {
      var (d2, ok) := d1.ShowWindow(h, false);
      CallCareful(d, d2, h, ApiCall(h, SwHide, ok), graph, pids, t);
    }
  }

  lemma {:induction false} HideCareful(d: Desk, graph: WindowGraph, pids: set<Pid>, hides: seq<Hwnd>, t: set<Hwnd>)
    requires graph.WellKeyed() && Members(hides) <= t
    ensures Careful(d, HidePass(d, graph, pids, hides), graph, pids, t)
    decreases hides
  {
    if hides == [] {
      StillCareful(d, graph, pids, t);
    } else {
      var d1 := HideOne(d, graph, pids, hides[0]);
      assert hides[0] in Members(hides);
      HideOneCareful(d, graph, pids, hides[0], t);
      HideCareful(d1, graph, pids, hides[1..], t);
      CarefulComposes(d, d1, HidePass(d1, graph, pids, hides[1..]), graph, pids, t);
    }
  }

  lemma PosOneWatchful(s: Held, graph: WindowGraph, pids: set<Pid>, p: Pos, t: set<Hwnd>)
    requires graph.WellKeyed() && p.hwnd in t
    ensures Watchful(s, PosOne(s, graph, pids, p), graph, pids, t)
  {
    var h, d1, s' := p.hwnd, s.desk.Looked(p.hwnd), PosOne(s, graph, pids, p);
    LookCareful(s.desk, h, graph, pids, t);
    if Verdict(d1, graph, pids, h) && (p.ViewResize() || !AlreadyEmpty(graph.nodes[h])) {
      RememberTaken(s.desk, s.snapshots, graph, pids, h);
      var noMove := p.ViewResize() || graph.nodes[h].structuralParent.Some?;
      var (d2, ok) := d1.SetWindowPos(h, p.x, p.y, p.width, p.height, noMove);
      CallCareful(s.desk, d2, h, ApiCall(h, CallKind.SetWindowPos(p.x, p.y, p.width, p.height, noMove), ok), graph, pids, t);
      CapturedLonger(s.snapshots, s'.snapshots, s.desk, d1, d2, graph, pids);
    }
  }

  lemma CapturedLonger(s: Snapshots, s': Snapshots, d: Desk, d1: Desk, d2: Desk, graph: WindowGraph, pids: set<Pid>)
    requires d.log <= d1.log <= d2.log && Captured(s, s', Added(d, d1), graph, pids)
    ensures Captured(s, s', Added(d, d2), graph, pids)
  {
    AddedConcat(d, d1, d2);
    forall id | id in s' && id !in s ensures Taken(Added(d, d2), id, s'[id], graph, pids) {
      TakenConcat(Added(d, d1), Added(d1, d2), id, s'[id], graph, pids);
    }
  }

  function PlacedHandles(places: seq<Pos>): set<Hwnd> { set p | p in places :: p.hwnd }

  lemma {:induction false} PosWatchful(s: Held, graph: WindowGraph, pids: set<Pid>, places: seq<Pos>, t: set<Hwnd>)
    requires graph.WellKeyed() && PlacedHandles(places) <= t
    ensures Watchful(s, PosPass(s, graph, pids, places), graph, pids, t)
    decreases places
  {
    if places == [] {
      StillCareful(s.desk, graph, pids, t);
    } else {
      var s1 := PosOne(s, graph, pids, places[0]);
      assert places[0].hwnd in PlacedHandles(places);
      PosOneWatchful(s, graph, pids, places[0], t);
      PosWatchful(s1, graph, pids, places[1..], t);
      WatchfulComposes(s, s1, PosPass(s1, graph, pids, places[1..]), graph, pids, t);
    }
  }

  lemma {:induction false} CloseCareful(d: Desk, graph: WindowGraph, pids: set<Pid>, closes: seq<Hwnd>, t: set<Hwnd>)
    requires graph.WellKeyed() && Members(closes) <= t
    ensures Careful(d, ClosePass(d, graph, pids, closes), graph, pids, t)
    decreases closes
  {
    if closes == [] {
      StillCareful(d, graph, pids, t);
    } else {
      var h, rest := closes[0], closes[1..];
      var d1 := d.Looked(h);
      assert h in Members(closes);
      LookCareful(d, h, graph, pids, t);
      if !Verdict(d1, graph, pids, h) {
        CloseCareful(d1, graph, pids, rest, t);
        CarefulComposes(d, d1, ClosePass(d1, graph, pids, rest), graph, pids, t);
      } else if !d1.fate.late(d1.clock) {
        var d2 := d1.SendClose(h);
        CallCareful(d, d2, h, ApiCall(h, WmClose, h in d1.Drifted().windows), graph, pids, t);
        CloseCareful(d2, graph, pids, rest, t);
        CarefulComposes(d, d2, ClosePass(d2, graph, pids, rest), graph, pids, t);
      }
    }
  }

  // ---------------------------------------------------------------- one apply

  function PlanTargets(plan: Plan): set<Hwnd> { Members(plan.hide) + PlacedHandles(plan.setPos) + Members(plan.close) }

  /** However the desktop changes meanwhile: every call of one apply goes to a target whose check, made
      directly before it, saw a responding window of a watched process that is the one in the graph; every
      new snapshot is what such a check saw; and no other window differs, unless it only just appeared. */
  lemma NoForeignWindow(s: Held, graph: WindowGraph, pids: set<Pid>, plan: Plan)
    requires graph.WellKeyed()
    ensures var s' := ApplyPlan(s, graph, pids, plan);
            && Careful(s.desk, s'.desk, graph, pids, PlanTargets(plan))
            && Captured(s.snapshots, s'.snapshots, Added(s.desk, s'.desk), graph, pids)
  {
    var t := PlanTargets(plan);
    StillCareful(s.desk, graph, pids, t);
    if s.desk.live {
      var s1, s2 := Undo.AfterCapture(s, graph, pids, plan), Undo.AfterHide(s, graph, pids, plan);
      var s3, s4 := Undo.AfterPlace(s, graph, pids, plan), Undo.AfterClose(s, graph, pids, plan);
      CaptureWatchful(s, graph, pids, plan.hide + ShrinkTargets(plan.setPos), t);
      HideCareful(s1.desk, graph, pids, plan.hide, t);
      WatchfulComposes(s, s1, s2, graph, pids, t);
      PosWatchful(s2, graph, pids, plan.setPos, t);
      WatchfulComposes(s, s2, s3, graph, pids, t);
      CloseCareful(s3.desk, graph, pids, plan.close, t);
      WatchfulComposes(s, s3, s4, graph, pids, t);
    }
  }

  // ---------------------------------------------------------------- order

  predicate NoClose(log: seq<ApiCall>) { forall a | 0 <= a < |log| :: !log[a].kind.WmClose? }

  predicate NoPlace(log: seq<ApiCall>) { forall a | 0 <= a < |log| :: !log[a].kind.SetWindowPos? }

  predicate OnlyCloses(log: seq<ApiCall>) { forall a | 0 <= a < |log| :: log[a].kind.WmClose? || log[a].kind.Look? }

  lemma {:induction false} CaptureLog(s: Held, graph: WindowGraph, pids: set<Pid>, targets: seq<Hwnd>)
    ensures var d' := CapturePass(s, graph, pids, targets).desk; s.desk.log <= d'.log && NoClose(Added(s.desk, d')) && NoPlace(Added(s.desk, d'))
    decreases targets
  {
    if targets != [] {
      var s1 := s.(desk := s.desk.Looked(targets[0]));
      var s2 := if Verdict(s1.desk, graph, pids, targets[0]) then Remember(s1, graph, targets[0]) else s1;
      CaptureLog(s2, graph, pids, targets[1..]);
      AddedConcat(s.desk, s2.desk, CapturePass(s2, graph, pids, targets[1..]).desk);
    }
  }

  lemma {:induction false} HideLog(d: Desk, graph: WindowGraph, pids: set<Pid>, hides: seq<Hwnd>)
    ensures var d' := HidePass(d, graph, pids, hides); d.log <= d'.log && NoClose(Added(d, d')) && NoPlace(Added(d, d'))
    decreases hides
  {
    if hides != [] {
      var d1 := HideOne(d, graph, pids, hides[0]);
      HideLog(d1, graph, pids, hides[1..]);
      AddedConcat(d, d1, HidePass(d1, graph, pids, hides[1..]));
    }
  }

  lemma PosOneLog(s: Held, graph: WindowGraph, pids: set<Pid>, p: Pos)
    ensures var d' := PosOne(s, graph, pids, p).desk; s.desk.log <= d'.log && NoClose(Added(s.desk, d'))
  {
  }

  lemma {:induction false} PosLog(s: Held, graph: WindowGraph, pids: set<Pid>, places: seq<Pos>)
    ensures var d' := PosPass(s, graph, pids, places).desk; s.desk.log <= d'.log && NoClose(Added(s.desk, d'))
    decreases places
  {
    if places != [] {
      var s1 := PosOne(s, graph, pids, places[0]);
      PosOneLog(s, graph, pids, places[0]);
      PosLog(s1, graph, pids, places[1..]);
      AddedConcat(s.desk, s1.desk, PosPass(s1, graph, pids, places[1..]).desk);
    }
  }

  lemma {:induction false} CloseLog(d: Desk, graph: WindowGraph, pids: set<Pid>, closes: seq<Hwnd>)
    ensures var d' := ClosePass(d, graph, pids, closes); d.log <= d'.log && OnlyCloses(Added(d, d'))
    decreases closes
  {
    if closes != [] {
      var d1 := d.Looked(closes[0]);
      if !Verdict(d1, graph, pids, closes[0]) {
        CloseLog(d1, graph, pids, closes[1..]);
        AddedConcat(d, d1, ClosePass(d1, graph, pids, closes[1..]));
      } else if !d1.fate.late(d1.clock) {
        var d2 := d1.SendClose(closes[0]);
        CloseLog(d2, graph, pids, closes[1..]);
        AddedConcat(d, d2, ClosePass(d2, graph, pids, closes[1..]));
      }
    }
  }

  /** From `d` to `d'` nobody was asked to close. */
  predicate OnlySizes(d: Desk, d': Desk) { d.log <= d'.log && NoClose(Added(d, d')) }

  lemma OnlySizesComposes(d: Desk, d1: Desk, d2: Desk)
    requires OnlySizes(d, d1) && OnlySizes(d1, d2)
    ensures OnlySizes(d, d2)
  {
    AddedConcat(d, d1, d2);
  }

  /** The capture, hide and place loops send no WM_CLOSE. */
  lemma NothingClosesEarly(s: Held, graph: WindowGraph, pids: set<Pid>, plan: Plan)
    ensures OnlySizes(s.desk, Undo.AfterPlace(s, graph, pids, plan).desk)
  {
    var s1, s2 := Undo.AfterCapture(s, graph, pids, plan), Undo.AfterHide(s, graph, pids, plan);
    CaptureLog(s, graph, pids, plan.hide + ShrinkTargets(plan.setPos));
    HideLog(s1.desk, graph, pids, plan.hide);
    OnlySizesComposes(s.desk, s1.desk, s2.desk);
    PosLog(s2, graph, pids, plan.setPos);
    OnlySizesComposes(s.desk, s2.desk, Undo.AfterPlace(s, graph, pids, plan).desk);
  }

  lemma PlanPhases(s: Held, graph: WindowGraph, pids: set<Pid>, plan: Plan)
    ensures ApplyPlan(s, graph, pids, plan).desk == if s.desk.live then Undo.AfterClose(s, graph, pids, plan).desk else s.desk
  {
  }

  /** All hides and sizes precede the first WM_CLOSE. */
  lemma SizesBeforeCloses(s: Held, graph: WindowGraph, pids: set<Pid>, plan: Plan) returns (before: seq<ApiCall>, after: seq<ApiCall>)
    ensures var d' := ApplyPlan(s, graph, pids, plan).desk;
            d'.log == s.desk.log + before + after && NoClose(before) && OnlyCloses(after)
  {
    before, after := [], [];
    PlanPhases(s, graph, pids, plan);
    if s.desk.live {
      var placed, closed := Undo.AfterPlace(s, graph, pids, plan).desk, Undo.AfterClose(s, graph, pids, plan).desk;
      NothingClosesEarly(s, graph, pids, plan);
      CloseLog(placed, graph, pids, plan.close);
      before, after := Added(s.desk, placed), Added(placed, closed);
    }
  }

  /** Once the deadline has passed nobody is asked to close any more. */
  lemma {:induction false} NoCloseAfterDeadline(d: Desk, graph: WindowGraph, pids: set<Pid>, closes: seq<Hwnd>)
    requires forall n | n >= d.clock :: d.fate.late(n)
    ensures var d' := ClosePass(d, graph, pids, closes); d.log <= d'.log && NoClose(Added(d, d'))
    decreases closes
  {
    if closes != [] {
      var d1 := d.Looked(closes[0]);
      if !Verdict(d1, graph, pids, closes[0]) {
        NoCloseAfterDeadline(d1, graph, pids, closes[1..]);
        AddedConcat(d, d1, ClosePass(d1, graph, pids, closes[1..]));
      }
    }
  }

  // ---------------------------------------------------------------- what is zero-sized is held

  predicate ZeroSizes(call: ApiCall) { call.kind.SetWindowPos? && !(call.kind.width > 0 && call.kind.height > 0) }

  /** Each zero-sizing call was made for a window the graph knows, whose snapshot is held. */
  predicate ZeroSizedHeld(log: seq<ApiCall>, graph: WindowGraph, snapshots: Snapshots) {
    forall a | 0 <= a < |log| && ZeroSizes(log[a]) ::
      log[a].target in graph.nodes && graph.nodes[log[a].target].Identity() in snapshots
  }

  lemma HeldConcat(a: seq<ApiCall>, b: seq<ApiCall>, graph: WindowGraph, some: Snapshots, more: Snapshots)
    requires ZeroSizedHeld(a, graph, some) && ZeroSizedHeld(b, graph, more) && some.Keys <= more.Keys
    ensures ZeroSizedHeld(a + b, graph, more)
  {
    forall i | 0 <= i < |a + b| && ZeroSizes((a + b)[i])
      ensures (a + b)[i].target in graph.nodes && graph.nodes[(a + b)[i].target].Identity() in more
    {
      if i < |a| {
        assert a[i].target in graph.nodes && graph.nodes[a[i].target].Identity() in some;
      } else {
        assert (a + b)[i] == b[i - |a|];
      }
    }
  }

  lemma PosOneHeld(s: Held, graph: WindowGraph, pids: set<Pid>, p: Pos)
    ensures var s' := PosOne(s, graph, pids, p);
            s.desk.log <= s'.desk.log && s.snapshots.Keys <= s'.snapshots.Keys && ZeroSizedHeld(Added(s.desk, s'.desk), graph, s'.snapshots)
  {
  }

  lemma {:induction false} PosHeld(s: Held, graph: WindowGraph, pids: set<Pid>, places: seq<Pos>)
    ensures var s' := PosPass(s, graph, pids, places);
            s.desk.log <= s'.desk.log && s.snapshots.Keys <= s'.snapshots.Keys && ZeroSizedHeld(Added(s.desk, s'.desk), graph, s'.snapshots)
    decreases places
  {
    if places != [] {
      var s1, s' := PosOne(s, graph, pids, places[0]), PosPass(s, graph, pids, places);
      PosOneHeld(s, graph, pids, places[0]);
      PosHeld(s1, graph, pids, places[1..]);
      AddedConcat(s.desk, s1.desk, s'.desk);
      HeldConcat(Added(s.desk, s1.desk), Added(s1.desk, s'.desk), graph, s1.snapshots, s'.snapshots);
    }
  }

  /** Whatever recovers or is switched on between the loops: the place loop captures what the capture loop
      had to leave out, so every window zero-sized by one apply is held after its place loop, and after the
      whole apply unless it is gone. */
  lemma ZeroSizedAreHeld(s: Held, graph: WindowGraph, pids: set<Pid>, plan: Plan)
    requires s.desk.live
    ensures var s3, s' := Undo.AfterPlace(s, graph, pids, plan), ApplyPlan(s, graph, pids, plan);
            && s.desk.log <= s3.desk.log <= s'.desk.log
            && ZeroSizedHeld(Added(s.desk, s3.desk), graph, s3.snapshots) && NoPlace(Added(s3.desk, s'.desk))
            && forall id | id in s3.snapshots :: id in s'.snapshots || !s'.desk.Matches(id)
  {
    var s1, s2, s3 := Undo.AfterCapture(s, graph, pids, plan), Undo.AfterHide(s, graph, pids, plan), Undo.AfterPlace(s, graph, pids, plan);
    PlanPhases(s, graph, pids, plan);
    CaptureLog(s, graph, pids, plan.hide + ShrinkTargets(plan.setPos));
    HideLog(s1.desk, graph, pids, plan.hide);
    PosHeld(s2, graph, pids, plan.setPos);
    CloseLog(s3.desk, graph, pids, plan.close);
    AddedConcat(s.desk, s1.desk, s2.desk);
    AddedConcat(s.desk, s2.desk, s3.desk);
    HeldConcat(Added(s.desk, s2.desk), Added(s2.desk, s3.desk), graph, s3.snapshots, s3.snapshots);
  }
}

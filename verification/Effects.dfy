/** What one application of a plan does when nothing gets in the way: exactly what it says. */
module Effects {
  import opened Model
  import opened Desktop
  import opened Engine
  import opened Undo

  /** A placed window has the size asked for; only a window that already has a place keeps its corner, and
      only if it may not be moved. */
  lemma PlacedMeans(rect: Option<Rect>, x: int, y: int, width: int, height: int, noMove: bool)
    ensures var r := Placed(rect, x, y, width, height, noMove);
            && (r.right - r.left, r.bottom - r.top) == (width, height)
            && if rect.Some? && noMove then (r.left, r.top) == (rect.value.left, rect.value.top) else (r.left, r.top) == (x, y)
  {
  }

  /** No call is refused, windows neither hang, die, appear nor recover, nobody switches the engine on or
      off and no deadline passes. */
  ghost predicate Calm(f: Fate) {
    && (forall n, h :: !f.refusesShow(n, h) && !f.refusesPos(n, h))
    && (forall n :: f.hangs(n) == {} && f.dies(n) == {} && !f.switchesOff(n) && !f.late(n))
    && (forall n :: f.appears(n) == map[] && f.recovers(n) == {} && !f.switchesOn(n))
  }

  lemma CalmDrift(d: Desk)
    requires Calm(d.fate)
    ensures d.Drifted() == d.(clock := d.clock + 1)
  {
    assert d.windows - d.fate.dies(d.clock) == d.windows;
  }

  /** A check then only leaves its trace in the log. */
  lemma CalmLook(d: Desk, h: Hwnd)
    requires Calm(d.fate)
    ensures d.Looked(h) == d.(clock := d.clock + 1, looks := d.looks + 1, log := d.log + [ApiCall(h, Look(d.SightingOf(h)), true)])
  {
    CalmDrift(d);
    assert d.windows + d.fate.appears(d.looks) == d.windows;
  }

  /** Two desktops that give the same answer to every check. */
  ghost predicate SameChecks(d: Desk, d': Desk) {
    && d'.live == d.live && d'.hung == d.hung && d'.fate == d.fate
    && d'.windows.Keys == d.windows.Keys
    && forall h | h in d.windows :: SameWindow(d.windows[h], d'.windows[h])
  }

  function PlacedOnce(rect: Option<Rect>, node: WindowNode, h: Hwnd, p: Pos): Option<Rect> {
    if p.hwnd != h || (!p.ViewResize() && AlreadyEmpty(node)) then rect
    else Some(Placed(rect, p.x, p.y, p.width, p.height, p.ViewResize() || node.structuralParent.Some?))
  }

  /** The rectangle after the entries for this window, in plan order. */
  function PlacedBy(rect: Option<Rect>, node: WindowNode, h: Hwnd, places: seq<Pos>): Option<Rect>
    decreases places
  {
    if places == [] then rect else PlacedBy(PlacedOnce(rect, node, h, places[0]), node, h, places[1..])
  }

  lemma {:induction false} CaptureCalm(s: Held, graph: WindowGraph, pids: set<Pid>, targets: seq<Hwnd>)
    requires Calm(s.desk.fate)
    ensures var s' := CapturePass(s, graph, pids, targets);
            && s'.desk.windows == s.desk.windows && SameChecks(s.desk, s'.desk)
            && forall h | h in targets && Verdict(s.desk, graph, pids, h) :: graph.nodes[h].Identity() in s'.snapshots
    decreases targets
  {
    if targets != [] {
      var s1 := s.(desk := s.desk.Looked(targets[0]));
      CalmLook(s.desk, targets[0]);
      var s2 := if Verdict(s1.desk, graph, pids, targets[0]) then Remember(s1, graph, targets[0]) else s1;
      CaptureCalm(s2, graph, pids, targets[1..]);
      CaptureOnlyAdds(s2, graph, pids, targets[1..]);
    }
  }

  lemma {:induction false} CaptureOnlyAdds(s: Held, graph: WindowGraph, pids: set<Pid>, targets: seq<Hwnd>)
    ensures s.snapshots.Keys <= CapturePass(s, graph, pids, targets).snapshots.Keys
    decreases targets
  {
    if targets != [] {
      var s1 := s.(desk := s.desk.Looked(targets[0]));
      CaptureOnlyAdds(if Verdict(s1.desk, graph, pids, targets[0]) then Remember(s1, graph, targets[0]) else s1,
                      graph, pids, targets[1..]);
    }
  }

  lemma {:induction false} HideCalm(d: Desk, graph: WindowGraph, pids: set<Pid>, hides: seq<Hwnd>)
    requires Calm(d.fate)
    ensures var d' := HidePass(d, graph, pids, hides);
            && SameChecks(d, d')
            && forall h | h in d.windows ::
                 && d'.windows[h].rect == d.windows[h].rect
                 && d'.windows[h].visible == (d.windows[h].visible && !(h in hides && Verdict(d, graph, pids, h)))
    decreases hides
  {
    if hides != [] {
      CalmLook(d, hides[0]);
      CalmDrift(d.Looked(hides[0]));
      HideCalm(HideOne(d, graph, pids, hides[0]), graph, pids, hides[1..]);
    }
  }

  lemma PosOneCalm(s: Held, graph: WindowGraph, pids: set<Pid>, p: Pos)
    requires Calm(s.desk.fate)
    ensures var d, d' := s.desk, PosOne(s, graph, pids, p).desk;
            && SameChecks(d, d')
            && forall h | h in d.windows ::
                 && d'.windows[h].visible == d.windows[h].visible
                 && d'.windows[h].rect ==
                      if Verdict(d, graph, pids, h) then PlacedOnce(d.windows[h].rect, graph.nodes[h], h, p) else d.windows[h].rect
  {
    CalmLook(s.desk, p.hwnd);
    CalmDrift(s.desk.Looked(p.hwnd));
  }

  lemma {:induction false} PosCalm(s: Held, graph: WindowGraph, pids: set<Pid>, places: seq<Pos>)
    requires Calm(s.desk.fate)
    ensures var d, d' := s.desk, PosPass(s, graph, pids, places).desk;
            && SameChecks(d, d')
            && forall h | h in d.windows ::
                 && d'.windows[h].visible == d.windows[h].visible
                 && d'.windows[h].rect ==
                      if Verdict(d, graph, pids, h) then PlacedBy(d.windows[h].rect, graph.nodes[h], h, places) else d.windows[h].rect
    decreases places
  {
    if places != [] {
      PosOneCalm(s, graph, pids, places[0]);
      PosCalm(PosOne(s, graph, pids, places[0]), graph, pids, places[1..]);
    }
  }

  /** The close requests of a plan, in order, to the windows whose check succeeds. */
  function CloseCalls(d: Desk, graph: WindowGraph, pids: set<Pid>, closes: seq<Hwnd>): seq<ApiCall> {
    if closes == [] then []
    else (if Verdict(d, graph, pids, closes[0]) then [ApiCall(closes[0], WmClose, true)] else [])
         + CloseCalls(d, graph, pids, closes[1..])
  }

  /** The mutating calls among the entries. */
  function Calls(log: seq<ApiCall>): seq<ApiCall> {
    if log == [] then [] else (if log[0].kind.Look? then [] else [log[0]]) + Calls(log[1..])
  }

  lemma {:induction false} CallsConcat(a: seq<ApiCall>, b: seq<ApiCall>)
    ensures Calls(a + b) == Calls(a) + Calls(b)
  {
    if a == [] {
      assert a + b == b;
    } else {
      assert (a + b)[1..] == a[1..] + b;
      CallsConcat(a[1..], b);
    }
  }

  /** Nobody agrees to close. */
  ghost predicate NobodyCloses(f: Fate) { forall n, h :: f.closes(n, h) == {} }

  /** One close request, or the check that prevents it. */
  function CloseOne(d: Desk, graph: WindowGraph, pids: set<Pid>, h: Hwnd): Desk {
    if Verdict(d.Looked(h), graph, pids, h) then d.Looked(h).SendClose(h) else d.Looked(h)
  }

  lemma CloseOneCalm(d: Desk, d0: Desk, graph: WindowGraph, pids: set<Pid>, h: Hwnd) returns (added: seq<ApiCall>)
    requires Calm(d.fate) && SameChecks(d0, d) && graph.WellKeyed() && NobodyCloses(d.fate)
    ensures var d' := CloseOne(d, graph, pids, h);
            && d'.windows == d.windows && SameChecks(d0, d') && d'.fate == d.fate
            && d'.log == d.log + added && Calls(added) == CloseCalls(d0, graph, pids, [h])
    ensures Verdict(d.Looked(h), graph, pids, h) == Verdict(d0, graph, pids, h)
  {
    var d1 := d.Looked(h);
    CalmLook(d, h);
    CalmDrift(d1);
    var look, call := [ApiCall(h, Look(d.SightingOf(h)), true)], [ApiCall(h, WmClose, true)];
    CallsConcat(look, call);
    assert [h][1..] == [] && CloseCalls(d0, graph, pids, []) == [];
    if Verdict(d1, graph, pids, h) {
      added := look + call;
      assert d1.SendClose(h).log == d.log + (look + call);
    } else {
      added := look;
    }
  }

  lemma CloseCallsSplit(d: Desk, graph: WindowGraph, pids: set<Pid>, closes: seq<Hwnd>)
    requires closes != []
    ensures CloseCalls(d, graph, pids, closes) == CloseCalls(d, graph, pids, [closes[0]]) + CloseCalls(d, graph, pids, closes[1..])
  {
    assert [closes[0]][1..] == [] && CloseCalls(d, graph, pids, []) == [];
  }

  lemma ClosePassSplits(d: Desk, graph: WindowGraph, pids: set<Pid>, closes: seq<Hwnd>)
    requires Calm(d.fate) && closes != []
    ensures ClosePass(d, graph, pids, closes) == ClosePass(CloseOne(d, graph, pids, closes[0]), graph, pids, closes[1..])
  {
  }

  lemma CloseJoins(d: Desk, d1: Desk, d2: Desk, d0: Desk, graph: WindowGraph, pids: set<Pid>, closes: seq<Hwnd>,
                   first: seq<ApiCall>, rest: seq<ApiCall>)
    requires closes != [] && d1.log == d.log + first && d2.log == d1.log + rest
    requires Calls(first) == CloseCalls(d0, graph, pids, [closes[0]]) && Calls(rest) == CloseCalls(d0, graph, pids, closes[1..])
    ensures d2.log == d.log + (first + rest) && Calls(first + rest) == CloseCalls(d0, graph, pids, closes)
  {
    CallsConcat(first, rest);
    CloseCallsSplit(d0, graph, pids, closes);
  }

  lemma {:induction false} CloseCalm(d: Desk, d0: Desk, graph: WindowGraph, pids: set<Pid>, closes: seq<Hwnd>) returns (added: seq<ApiCall>)
    requires Calm(d.fate) && SameChecks(d0, d) && graph.WellKeyed() && NobodyCloses(d.fate)
    ensures var d' := ClosePass(d, graph, pids, closes);
            && d'.windows == d.windows && SameChecks(d0, d')
            && d'.log == d.log + added && Calls(added) == CloseCalls(d0, graph, pids, closes)
    decreases closes
  {
    if closes == [] {
      added := [];
    } else {
      var first := CloseOneCalm(d, d0, graph, pids, closes[0]);
      var d1 := CloseOne(d, graph, pids, closes[0]);
      var rest := CloseCalm(d1, d0, graph, pids, closes[1..]);
      added := first + rest;
      CloseJoins(d, d1, ClosePass(d1, graph, pids, closes[1..]), d0, graph, pids, closes, first, rest);
      ClosePassSplits(d, graph, pids, closes);
    }
  }

  /** When nothing gets in the way and every window refuses to close, the plan is carried out to the
      letter: exactly the checked targets are hidden and placed, all others are as before, everything
      hidden or zero-sized has a snapshot, and each checked close target was asked, in order, after
      everything else. */
  lemma CalmPlanIsCarriedOut(s: Held, graph: WindowGraph, pids: set<Pid>, plan: Plan) returns (before: seq<ApiCall>, after: seq<ApiCall>)
    requires s.desk.live && Calm(s.desk.fate) && graph.WellKeyed() && NobodyCloses(s.desk.fate)
    ensures var s' := ApplyPlan(s, graph, pids, plan);
            && s'.desk.windows.Keys == s.desk.windows.Keys
            && (forall h | h in s.desk.windows && Verdict(s.desk, graph, pids, h) ::
                  && s'.desk.windows[h].visible == (s.desk.windows[h].visible && h !in plan.hide)
                  && s'.desk.windows[h].rect == PlacedBy(s.desk.windows[h].rect, graph.nodes[h], h, plan.setPos)
                  && (h in plan.hide || h in ShrinkTargets(plan.setPos) ==> graph.nodes[h].Identity() in s'.snapshots))
            && (forall h | h in s.desk.windows && !Verdict(s.desk, graph, pids, h) ::
                  s'.desk.windows[h].visible == s.desk.windows[h].visible && s'.desk.windows[h].rect == s.desk.windows[h].rect)
            && before == AfterPlace(s, graph, pids, plan).desk.log
            && s'.desk.log == before + after && Calls(after) == CloseCalls(s.desk, graph, pids, plan.close)
  {
    var targets := plan.hide + ShrinkTargets(plan.setPos);
    CaptureCalm(s, graph, pids, targets);
    var s1 := CapturePass(s, graph, pids, targets);
    HideCalm(s1.desk, graph, pids, plan.hide);
    var s2 := s1.(desk := HidePass(s1.desk, graph, pids, plan.hide));
    PosCalm(s2, graph, pids, plan.setPos);
    var s3 := PosPass(s2, graph, pids, plan.setPos);
    PosOnlyAdds(s2, graph, pids, plan.setPos);
    before := s3.desk.log;
    after := CloseCalm(s3.desk, s.desk, graph, pids, plan.close);
    forall h | h in targets && Verdict(s.desk, graph, pids, h)
      ensures graph.nodes[h].Identity() in s3.snapshots
    {
    }
  }

  lemma {:induction false} PosOnlyAdds(s: Held, graph: WindowGraph, pids: set<Pid>, places: seq<Pos>)
    ensures s.snapshots.Keys <= PosPass(s, graph, pids, places).snapshots.Keys
    decreases places
  {
    if places != [] {
      PosOnlyAdds(PosOne(s, graph, pids, places[0]), graph, pids, places[1..]);
    }
  }

  /** A window planned only to disappear is left with no area. */
  lemma {:induction false} ZeroEntriesEmpty(rect: Option<Rect>, node: WindowNode, h: Hwnd, places: seq<Pos>)
    requires AlreadyEmpty(node) ==> Empty(rect)
    requires exists p | p in places :: p.hwnd == h
    requires forall p | p in places && p.hwnd == h :: p == Pos(h, 0, 0, 0, 0)
    ensures Empty(PlacedBy(rect, node, h, places))
    decreases places
  {
    var next := PlacedOnce(rect, node, h, places[0]);
    assert places[0] in places;
    if exists p | p in places[1..] :: p.hwnd == h {
      ZeroEntriesEmpty(next, node, h, places[1..]);
    } else {
      var p :| p in places && p.hwnd == h;
      assert p == places[0];
      OthersLeaveAlone(next, node, h, places[1..]);
    }
  }

  lemma {:induction false} OthersLeaveAlone(rect: Option<Rect>, node: WindowNode, h: Hwnd, places: seq<Pos>)
    requires forall p | p in places :: p.hwnd != h
    ensures PlacedBy(rect, node, h, places) == rect
    decreases places
  {
    if places != [] {
      OthersLeaveAlone(rect, node, h, places[1..]);
    }
  }
}

/** The loops of one evaluation, run on the worker's objects and proved to do what `Evaluate` says. */
module EvaluateLoops {
  import opened Model
  import opened Ordering
  import opened Search
  import opened Signals
  import opened Evaluate

  /** The state map being updated, with the identities judged this tick. */
  class Recorder {
    var states: States
    var touched: set<WindowIdentity>
    ghost var verdicts: seq<Verdict>

    constructor (states: States)
      ensures Value() == Store(states, {}, [])
    {
      this.states, touched, verdicts := states, {}, [];
    }

    ghost function Value(): Store
      reads this
    {
      Store(states, touched, verdicts)
    }

    method Update(id: WindowIdentity, decision: AdDecision, ticks: int) returns (state: CandidateState, confirmed: bool)
      modifies this
      ensures Stored(Value(), state, confirmed) == StoreUpdate(old(Value()), id, decision, ticks)
    {
      state, confirmed := if id in states then states[id] else UNSEEN, false;
      var (next, ok) := UpdateCandidateState(state, decision, ticks);
      state, confirmed := next, ok;
      states := states[id := state];
      verdicts := verdicts + [Verdict(id, decision, confirmed)];
    }

    method Once(id: WindowIdentity, decision: AdDecision, ticks: int, track: bool)
      returns (stored: bool, state: CandidateState, confirmed: bool)
      modifies this
      ensures var r := StoreOnce(old(Value()), id, decision, ticks, track);
              if stored then r == Some(Stored(Value(), state, confirmed)) else r == None && Value() == old(Value())
    {
      state, confirmed := UNSEEN, false;
      if decision.Matched() {
        touched := touched + {id};
      } else if track && id !in touched {
        touched := touched + {id};
      } else {
        return false, state, confirmed;
      }
      stored := true;
      state, confirmed := Update(id, decision, ticks);
    }
  }

  /** The per-tick accumulator of planned mutations. */
  class MutationLog {
    var log: Log

    constructor ()
      ensures log == EMPTY_LOG
    {
      log := EMPTY_LOG;
    }

    method HideWindow(h: Hwnd)
      modifies this
      ensures log == old(log).HideWindow(h).(hidden := old(log).hidden + 1)
    {
      log := log.(hides := log.hides + [h]);
      log := log.(hidden := log.hidden + 1);
    }

    method Resize(h: Hwnd, width: int, height: int)
      modifies this
      ensures log == old(log).SetPos(Pos(h, 0, 0, width, height)).(resized := old(log).resized + 1)
    {
      log := log.(setPos := log.setPos + [Pos(h, 0, 0, width, height)]);
      log := log.(resized := log.resized + 1);
    }

    method SendClose(h: Hwnd)
      modifies this
      ensures log == old(log).SendClose(h)
    {
      log := log.(closes := log.closes + [h]);
      log := log.(closed := log.closed + 1);
    }

    method RetainPopup(h: Hwnd, visible: bool)
      modifies this
      ensures log == Evaluate.RetainPopup(old(log), h, visible)
    {
      if visible {
        log := log.(closes := log.closes + [h], popupCloseRequests := log.popupCloseRequests + 1);
      }
      log := log.(hides := log.hides + [h]);
      log := log.(setPos := log.setPos + [Pos(h, 0, 0, 0, 0)]);
      if visible {
        log := log.(popupHideFallbacks := log.popupHideFallbacks + 1,
                    popupZeroSizeFallbacks := log.popupZeroSizeFallbacks + 1,
                    hidden := log.hidden + 1);
      }
    }
  }

  // ---------------------------------------------------------------- sorting

  lemma HeadIsMember(a: seq<int>)
    ensures |a| > 0 ==> a[0] in a
  {
  }

  lemma {:induction false} AscendingIsUnique(a: seq<int>, b: seq<int>)
    requires Ascending(a) && Ascending(b) && forall x :: x in a <==> x in b
    ensures a == b
  {
    if |a| > 0 {
      assert a[0] in a;
      assert |b| > 0 && b[0] in b;
      var i :| 0 <= i < |b| && b[i] == a[0];
      var j :| 0 <= j < |a| && a[j] == b[0];
      assert a[0] == b[0];
      forall x ensures x in a[1..] <==> x in b[1..] {
        assert x in a <==> x == a[0] || x in a[1..];
        assert x in b <==> x == b[0] || x in b[1..];
      }
      AscendingIsUnique(a[1..], b[1..]);
    } else if |b| > 0 {
      HeadIsMember(b);
    }
  }

  /** Sort and drop repetitions. */
  method UniqueSorted(values: seq<Hwnd>) returns (r: seq<Hwnd>)
    ensures r == SortedSeq(Members(values))
  {
    r := [];
    var i := 0;
    while i < |values|
      invariant 0 <= i <= |values|
      invariant Ascending(r) && forall x :: x in r <==> x in values[..i]
    {
      assert values[..i + 1] == values[..i] + [values[i]];
      r := InsertUnique(r, values[i]);
      i := i + 1;
    }
    assert values[..|values|] == values;
    SortedSeqSorts(Members(values));
    AscendingIsUnique(r, SortedSeq(Members(values)));
  }

  method InsertUnique(sorted: seq<Hwnd>, h: Hwnd) returns (r: seq<Hwnd>)
    requires Ascending(sorted)
    ensures Ascending(r) && forall x :: x in r <==> x in sorted || x == h
  {
    var k := 0;
    while k < |sorted| && sorted[k] < h
      invariant 0 <= k <= |sorted|
      invariant forall j | 0 <= j < k :: sorted[j] < h
    {
      k := k + 1;
    }
    if k < |sorted| && sorted[k] == h {
      r := sorted;
    } else {
      r := sorted[..k] + [h] + sorted[k..];
    }
  }

  // ---------------------------------------------------------------- searches with loops

  method FindPopupMatches(g: WindowGraph, rules: Rules, host: Hwnd) returns (hits: seq<Hit>)
    ensures hits == PopupMatches(g, rules, host)
  {
    var all := EnumDescendants(g, host, rules.popupSearchDepth);
    hits := [];
    var i := 0;
    while i < |all|
      invariant 0 <= i <= |all|
      invariant hits + MatchingHits(g, rules, all[i..]) == MatchingHits(g, rules, all)
    {
      assert all[i..][1..] == all[i + 1..];
      var h := all[i].0;
      var keep := h in g.nodes && g.nodes[h].className in rules.popupAdClasses;
      HitsStep(hits, g, rules, all[i..]);
      if keep {
        hits := hits + [all[i]];
      }
      i := i + 1;
    }
  }

  lemma HitsStep(hits: seq<Hit>, g: WindowGraph, rules: Rules, rest: seq<Hit>)
    requires rest != []
    ensures var h := rest[0].0;
            var kept := if h in g.nodes && g.nodes[h].className in rules.popupAdClasses then hits + [rest[0]] else hits;
            kept + MatchingHits(g, rules, rest[1..]) == hits + MatchingHits(g, rules, rest)
  {
    var h, more := rest[0].0, MatchingHits(g, rules, rest[1..]);
    if h in g.nodes && g.nodes[h].className in rules.popupAdClasses {
      assert MatchingHits(g, rules, rest) == [rest[0]] + more;
      Regroup(hits, [rest[0]], more);
    } else {
      assert MatchingHits(g, rules, rest) == more;
    }
  }

  lemma ContextsStep(ctxs: seq<ChildContext>, g: WindowGraph, settings: Settings, rules: Rules, wnd: Hwnd, rest: seq<Hwnd>, parentRect: Rect)
    requires rest != []
    ensures var kept := if IsTreeChild(g, wnd, rest[0]) then ctxs + [ContextOf(g, settings, rules, rest[0], parentRect)] else ctxs;
            kept + Contexts(g, settings, rules, wnd, rest[1..], parentRect) == ctxs + Contexts(g, settings, rules, wnd, rest, parentRect)
  {
    var more := Contexts(g, settings, rules, wnd, rest[1..], parentRect);
    if IsTreeChild(g, wnd, rest[0]) {
      var c := ContextOf(g, settings, rules, rest[0], parentRect);
      assert Contexts(g, settings, rules, wnd, rest, parentRect) == [c] + more;
      Regroup(ctxs, [c], more);
    } else {
      assert Contexts(g, settings, rules, wnd, rest, parentRect) == more;
    }
  }

  lemma OneMoreSignal(ctxs: seq<ChildContext>, c: ChildContext)
    ensures AnyAdSignal(ctxs + [c]) <==> AnyAdSignal(ctxs) || c.adSignal
  {
    var all := ctxs + [c];
    assert c in all && forall d | d in ctxs :: d in all;
    assert forall d | d in all :: d in ctxs || d == c;
  }

  /** First pass over the children of a main window: their contexts, and whether any carries an ad signal. */
  method ChildContexts(g: WindowGraph, settings: Settings, rules: Rules, wnd: Hwnd, parentRect: Rect)
    returns (ctxs: seq<ChildContext>, adSignal: bool)
    ensures ctxs == Contexts(g, settings, rules, wnd, g.ChildrenOf(wnd), parentRect)
    ensures adSignal == AnyAdSignal(ctxs)
  {
    var children := g.ChildrenOf(wnd);
    ctxs, adSignal := [], false;
    var i := 0;
    while i < |children|
      invariant 0 <= i <= |children|
      invariant ctxs + Contexts(g, settings, rules, wnd, children[i..], parentRect)
             == Contexts(g, settings, rules, wnd, children, parentRect)
      invariant adSignal == AnyAdSignal(ctxs)
    {
      assert children[i..][1..] == children[i + 1..];
      ContextsStep(ctxs, g, settings, rules, wnd, children[i..], parentRect);
      if IsTreeChild(g, wnd, children[i]) {
        var c := ContextOf(g, settings, rules, children[i], parentRect);
        if c.adSignal {
          adSignal := true;
        }
        OneMoreSignal(ctxs, c);
        ctxs := ctxs + [c];
      }
      i := i + 1;
    }
  }

  // ---------------------------------------------------------------- the apply pass

  method ApplyCloseStep(g: WindowGraph, rules: Rules, rec: Recorder, log: MutationLog, c: ChildContext,
                        parentText: string, adSignal: bool)
    modifies rec, log
    ensures Pass(rec.Value(), log.log) == ApplyClose(old(Pass(rec.Value(), log.log)), g, rules, c, parentText, adSignal)
  {
    if c.className == rules.evaChildClass && c.text == "" && parentText != "" {
      var scroll := ClassNameStartsWith(g, c.child, rules.customScrollPrefix);
      var d := EmptyEvaDecision(rules, c.className, c.text, parentText, scroll, adSignal);
      var track := !d.Matched() && (c.identity in rec.states || d.signals.HasRelevantSignal());
      var stored, _, confirmed := rec.Once(c.identity, d, rules.weakSignalConfirmTicks, track);
      if stored && confirmed {
        log.SendClose(c.child);
      }
    }
  }

  method ApplyResizeStep(rules: Rules, rec: Recorder, log: MutationLog, c: ChildContext, parentRect: Rect)
    modifies log
    ensures Pass(rec.Value(), log.log) == ApplyResize(old(Pass(rec.Value(), log.log)), rules, c, parentRect)
  {
    var planned := PlannedViewResize(rules, c.text, parentRect, c.currentRect);
    if planned.Some? {
      log.Resize(c.child, planned.value.0, planned.value.1);
    }
  }

  method ApplyAggressiveStep(settings: Settings, rules: Rules, rec: Recorder, log: MutationLog, c: ChildContext)
    modifies rec, log
    ensures Pass(rec.Value(), log.log) == ApplyAggressive(old(Pass(rec.Value(), log.log)), settings, rules, c)
  {
    if !settings.aggressiveMode || c.childRect.None? {
      return;
    }
    var track := !c.aggressive.Matched() && c.identity in rec.states;
    var stored, _, confirmed := rec.Once(c.identity, c.aggressive, rules.weakSignalConfirmTicks, track);
    if stored && confirmed && c.aggressive.action.Hide? {
      log.HideWindow(c.child);
    }
  }

  method ApplyOneChild(g: WindowGraph, settings: Settings, rules: Rules, rec: Recorder, log: MutationLog,
                       c: ChildContext, parentText: string, parentRect: Rect, adSignal: bool)
    modifies rec, log
    ensures Pass(rec.Value(), log.log)
         == ApplyChild(old(Pass(rec.Value(), log.log)), g, settings, rules, c, parentText, parentRect, adSignal)
  {
    ApplyCloseStep(g, rules, rec, log, c, parentText, adSignal);
    ApplyResizeStep(rules, rec, log, c, parentRect);
    ApplyAggressiveStep(settings, rules, rec, log, c);
  }

  method ApplyOneMain(g: WindowGraph, settings: Settings, rules: Rules, rec: Recorder, log: MutationLog, wnd: Hwnd)
    modifies rec, log
    ensures Pass(rec.Value(), log.log) == ApplyMain(old(Pass(rec.Value(), log.log)), g, settings, rules, wnd)
  {
    if wnd !in g.nodes || g.nodes[wnd].pid !in g.pids || g.nodes[wnd].rect.None? {
      return;
    }
    var rect, text := g.nodes[wnd].rect.value, g.nodes[wnd].Text();
    var ctxs, adSignal := ChildContexts(g, settings, rules, wnd, rect);
    var i := 0;
    while i < |ctxs|
      invariant 0 <= i <= |ctxs|
      invariant ApplyChildren(Pass(rec.Value(), log.log), g, settings, rules, ctxs[i..], text, rect, adSignal)
             == ApplyChildren(old(Pass(rec.Value(), log.log)), g, settings, rules, ctxs, text, rect, adSignal)
    {
      assert ctxs[i..][1..] == ctxs[i + 1..];
      ApplyOneChild(g, settings, rules, rec, log, ctxs[i], text, rect, adSignal);
      i := i + 1;
    }
  }

  method ApplyOneCandidate(g: WindowGraph, rules: Rules, rec: Recorder, log: MutationLog, wnd: Hwnd)
    modifies rec, log
    ensures Pass(rec.Value(), log.log) == ApplyCandidate(old(Pass(rec.Value(), log.log)), g, rules, wnd)
  {
    if wnd !in g.nodes || g.nodes[wnd].pid !in g.pids {
      return;
    }
    var id := g.nodes[wnd].Identity();
    var d := LegacyDecision(LegacySignatureKind(g, rules, wnd));
    var track := !d.Matched() && id in rec.states;
    var stored, _, confirmed := rec.Once(id, d, rules.weakSignalConfirmTicks, track);
    if stored && confirmed && d.action.Hide? {
      log.HideWindow(wnd);
    }
  }

  method ApplyOneHost(g: WindowGraph, rules: Rules, rec: Recorder, log: MutationLog, handled: set<Hwnd>, host: WindowNode)
    returns (handled': set<Hwnd>)
    modifies rec, log
    ensures PopupPass(rec.Value(), log.log, handled')
         == ApplyMatches(PopupPass(old(rec.Value()), old(log.log), handled), g, rules, host, PopupMatches(g, rules, host.hwnd))
  {
    handled' := handled;
    var guard := PopupHostGuard(rules, host);
    var hits := FindPopupMatches(g, rules, host.hwnd);
    var i := 0;
    while i < |hits|
      invariant 0 <= i <= |hits|
      invariant ApplyMatches(PopupPass(rec.Value(), log.log, handled'), g, rules, host, hits[i..])
             == ApplyMatches(PopupPass(old(rec.Value()), old(log.log), handled), g, rules, host, hits)
    {
      assert hits[i..][1..] == hits[i + 1..];
      handled' := ApplyOneMatch(g, rules, rec, log, handled', host, guard, hits[i]);
      i := i + 1;
    }
  }

  method ApplyOneMatch(g: WindowGraph, rules: Rules, rec: Recorder, log: MutationLog, handled: set<Hwnd>,
                       host: WindowNode, guard: PopupGuard, hit: Hit) returns (handled': set<Hwnd>)
    requires guard == PopupHostGuard(rules, host)
    modifies rec, log
    ensures PopupPass(rec.Value(), log.log, handled')
         == ApplyMatch(PopupPass(old(rec.Value()), old(log.log), handled), g, rules, host, hit)
  {
    handled' := handled;
    var (child, depth) := hit;
    if child in g.nodes {
      var _, _ := rec.Update(g.nodes[child].Identity(), PopupDecision(guard, depth), rules.weakSignalConfirmTicks);
    }
    if !guard.Allow? {
      return;
    }
    if host.hwnd !in handled' {
      log.RetainPopup(host.hwnd, host.visible);
      handled' := handled' + {host.hwnd};
    }
    if child !in handled' {
      log.RetainPopup(child, child in g.nodes && g.nodes[child].visible);
      handled' := handled' + {child};
    }
  }

  method ApplyOnce(g: WindowGraph, settings: Settings, rules: Rules, mains: seq<Hwnd>, candidates: seq<Hwnd>, top: seq<Hwnd>, rec: Recorder)
    returns (log: MutationLog)
    requires g.WellKeyed()
    requires mains == ConfirmedMains(g, rules) && candidates == Candidates(g, rules, Members(mains)) && top == TopLevel(g)
    requires rec.touched == {} && rec.verdicts == []
    modifies rec
    ensures fresh(log)
    ensures Pass(rec.Value(), log.log) == Apply(g, settings, rules, old(rec.states))
  {
    log := new MutationLog();
    ghost var a0 := Pass(rec.Value(), log.log);
    var i := 0;
    while i < |mains|
      invariant 0 <= i <= |mains|
      invariant ApplyMains(Pass(rec.Value(), log.log), g, settings, rules, mains[i..]) == ApplyMains(a0, g, settings, rules, mains)
    {
      assert mains[i..][1..] == mains[i + 1..];
      ApplyOneMain(g, settings, rules, rec, log, mains[i]);
      i := i + 1;
    }
    ghost var a1 := Pass(rec.Value(), log.log);
    i := 0;
    while i < |candidates|
      invariant 0 <= i <= |candidates|
      invariant ApplyCandidates(Pass(rec.Value(), log.log), g, rules, candidates[i..]) == ApplyCandidates(a1, g, rules, candidates)
    {
      assert candidates[i..][1..] == candidates[i + 1..];
      ApplyOneCandidate(g, rules, rec, log, candidates[i]);
      i := i + 1;
    }
    ghost var a2 := PopupPass(rec.Value(), log.log, {});
    var confirmed, handled: set<Hwnd> := Members(mains), {};
    i := 0;
    while i < |top|
      invariant 0 <= i <= |top|
      invariant ApplyPopups(PopupPass(rec.Value(), log.log, handled), g, rules, confirmed, top[i..])
             == ApplyPopups(a2, g, rules, confirmed, top)
    {
      assert top[i..][1..] == top[i + 1..];
      if IsPopupHost(g, confirmed, top[i]) {
        handled := ApplyOneHost(g, rules, rec, log, handled, g.nodes[top[i]]);
      }
      i := i + 1;
    }
  }

  // ---------------------------------------------------------------- the preview

  method InspectVerdict(rules: Rules, rec: Recorder, payloads: seq<Payload>, id: WindowIdentity, d: AdDecision)
    returns (payloads': seq<Payload>)
    modifies rec
    ensures Preview(rec.Value(), payloads') == InspectOne(Preview(old(rec.Value()), payloads), id, d, rules)
  {
    payloads' := payloads;
    var track := !d.Matched() && (id in rec.states || d.signals.HasRelevantSignal());
    var stored, state, confirmed := rec.Once(id, d, rules.weakSignalConfirmTicks, track);
    if stored {
      payloads' := payloads + [PayloadOf(id, d, Stored(Store(map[], {}, []), state, confirmed))];
    }
  }

  method InspectOneMain(g: WindowGraph, settings: Settings, rules: Rules, rec: Recorder, payloads: seq<Payload>, wnd: Hwnd)
    returns (payloads': seq<Payload>)
    modifies rec
    ensures Preview(rec.Value(), payloads') == InspectMain(Preview(old(rec.Value()), payloads), g, settings, rules, wnd)
  {
    payloads' := payloads;
    if wnd !in g.nodes || g.nodes[wnd].rect.None? {
      return;
    }
    var text := g.nodes[wnd].Text();
    var ctxs, adSignal := ChildContexts(g, settings, rules, wnd, g.nodes[wnd].rect.value);
    var i := 0;
    while i < |ctxs|
      invariant 0 <= i <= |ctxs|
      invariant InspectChildren(Preview(rec.Value(), payloads'), g, settings, rules, ctxs[i..], text, adSignal)
             == InspectChildren(Preview(old(rec.Value()), payloads), g, settings, rules, ctxs, text, adSignal)
    {
      assert ctxs[i..][1..] == ctxs[i + 1..];
      var c := ctxs[i];
      var close := CloseVerdict(g, rules, c, text, adSignal);
      if close.Some? {
        payloads' := InspectVerdict(rules, rec, payloads', c.identity, close.value);
      }
      if settings.aggressiveMode && c.childRect.Some? {
        payloads' := InspectVerdict(rules, rec, payloads', c.identity, c.aggressive);
      }
      i := i + 1;
    }
  }

  method InspectPopupVerdict(rules: Rules, rec: Recorder, payloads: seq<Payload>, id: WindowIdentity, d: AdDecision)
    returns (payloads': seq<Payload>)
    modifies rec
    ensures Preview(rec.Value(), payloads') == InspectPopup(Preview(old(rec.Value()), payloads), id, d, rules)
  {
    var state, confirmed := rec.Update(id, d, rules.weakSignalConfirmTicks);
    payloads' := payloads + [PayloadOf(id, d, Stored(Store(map[], {}, []), state, confirmed))];
  }

  method InspectOneHost(g: WindowGraph, rules: Rules, rec: Recorder, payloads: seq<Payload>, host: WindowNode)
    returns (payloads': seq<Payload>)
    modifies rec
    ensures (forall hit | hit in PopupMatches(g, rules, host.hwnd) :: hit.0 in g.nodes)
         && Preview(rec.Value(), payloads')
         == InspectMatches(Preview(old(rec.Value()), payloads), g, rules, host, PopupMatches(g, rules, host.hwnd))
  {
    payloads' := payloads;
    var guard := PopupHostGuard(rules, host);
    var hits := FindPopupMatches(g, rules, host.hwnd);
    MatchingHitsKept(g, rules, Descendants(g, host.hwnd, rules.popupSearchDepth));
    var i := 0;
    while i < |hits|
      invariant 0 <= i <= |hits|
      invariant InspectMatches(Preview(rec.Value(), payloads'), g, rules, host, hits[i..])
             == InspectMatches(Preview(old(rec.Value()), payloads), g, rules, host, hits)
    {
      assert hits[i..][1..] == hits[i + 1..];
      var (child, depth) := hits[i];
      var d := PopupDecision(guard, depth);
      if guard.Allow? {
        payloads' := InspectPopupVerdict(rules, rec, payloads', host.Identity(), d);
      }
      payloads' := InspectPopupVerdict(rules, rec, payloads', g.nodes[child].Identity(), d);
      i := i + 1;
    }
  }

  method InspectOnce(g: WindowGraph, settings: Settings, rules: Rules, mains: seq<Hwnd>, candidates: seq<Hwnd>, top: seq<Hwnd>, rec: Recorder)
    returns (payloads: seq<Payload>)
    requires g.WellKeyed()
    requires mains == ConfirmedMains(g, rules) && candidates == Candidates(g, rules, Members(mains)) && top == TopLevel(g)
    requires rec.touched == {} && rec.verdicts == []
    modifies rec
    ensures Preview(rec.Value(), payloads) == Inspect(g, settings, rules, old(rec.states))
  {
    payloads := [];
    ghost var p0 := Preview(rec.Value(), payloads);
    var i := 0;
    while i < |mains|
      invariant 0 <= i <= |mains|
      invariant InspectMains(Preview(rec.Value(), payloads), g, settings, rules, mains[i..]) == InspectMains(p0, g, settings, rules, mains)
    {
      assert mains[i..][1..] == mains[i + 1..];
      payloads := InspectOneMain(g, settings, rules, rec, payloads, mains[i]);
      i := i + 1;
    }
    ghost var p1 := Preview(rec.Value(), payloads);
    i := 0;
    while i < |candidates|
      invariant 0 <= i <= |candidates|
      invariant InspectCandidates(Preview(rec.Value(), payloads), g, rules, candidates[i..]) == InspectCandidates(p1, g, rules, candidates)
    {
      assert candidates[i..][1..] == candidates[i + 1..];
      var wnd := candidates[i];
      if wnd in g.nodes {
        payloads := InspectVerdict(rules, rec, payloads, g.nodes[wnd].Identity(), LegacyDecision(LegacySignatureKind(g, rules, wnd)));
      }
      i := i + 1;
    }
    ghost var p2 := Preview(rec.Value(), payloads);
    var confirmed := Members(mains);
    i := 0;
    while i < |top|
      invariant 0 <= i <= |top|
      invariant InspectPopups(Preview(rec.Value(), payloads), g, rules, confirmed, top[i..]) == InspectPopups(p2, g, rules, confirmed, top)
    {
      assert top[i..][1..] == top[i + 1..];
      if IsPopupHost(g, confirmed, top[i]) {
        payloads := InspectOneHost(g, rules, rec, payloads, g.nodes[top[i]]);
      }
      i := i + 1;
    }
  }

  // ---------------------------------------------------------------- the entry point

  /** The preview, when asked for, works on a copy of the states; the apply pass updates the states themselves. */
  method EvaluateGraph(g: WindowGraph, settings: Settings, rules: Rules, states: States, withCandidates: bool)
    returns (plan: Plan, payloads: seq<Payload>, states': States)
    requires g.WellKeyed()
    ensures plan == PlanOf(Apply(g, settings, rules, states).log)
    ensures states' == Apply(g, settings, rules, states).store.states
    ensures payloads == if withCandidates then Inspect(g, settings, rules, states).payloads else []
  {
    var top := TopLevel(g);
    var mains := ConfirmedMains(g, rules);
    var candidates := Candidates(g, rules, Members(mains));
    payloads := [];
    if withCandidates {
      var copy := new Recorder(states);
      payloads := InspectOnce(g, settings, rules, mains, candidates, top, copy);
    }
    var rec := new Recorder(states);
    var log := ApplyOnce(g, settings, rules, mains, candidates, top, rec);
    var hides := UniqueSorted(log.log.hides);
    var closes := UniqueSorted(log.log.closes);
    plan := Plan(hides, log.log.setPos, closes);
    states' := rec.states;
  }
}

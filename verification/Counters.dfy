/** The counters of one evaluation account for its entries. */
module Counters {
  import opened Model
  import opened Search
  import opened Signals
  import opened Evaluate

  /** How many placements resize a view. */
  function Views(setPos: seq<Pos>): nat {
    if setPos == [] then 0 else Views(setPos[..|setPos| - 1]) + if setPos[|setPos| - 1].ViewResize() then 1 else 0
  }

  /** Each close request is counted as one of a child or of a popup; each popup asked to close was also hidden
      and left without area as a fallback; what is hidden without being counted so is a popup that was not
      visible; and every other placement is a counted resize. */
  predicate Balanced(log: Log) {
    && log.closed + log.popupCloseRequests == |log.closes|
    && log.popupHideFallbacks == log.popupCloseRequests == log.popupZeroSizeFallbacks
    && log.resized == Views(log.setPos)
    && |log.hides| - log.hidden == |log.setPos| - log.resized - log.popupZeroSizeFallbacks
    && log.popupCloseRequests <= log.hidden && 0 <= log.closed
  }

  lemma OneViewMore(setPos: seq<Pos>, p: Pos)
    ensures Views(setPos + [p]) == Views(setPos) + if p.ViewResize() then 1 else 0
  {
    assert (setPos + [p])[..|setPos|] == setPos;
  }

  lemma CloseBalances(a: Pass, g: WindowGraph, rules: Rules, c: ChildContext, parentText: string, adSignal: bool)
    requires Balanced(a.log)
    ensures Balanced(ApplyClose(a, g, rules, c, parentText, adSignal).log)
  {
  }

  lemma ResizeBalances(a: Pass, rules: Rules, c: ChildContext, parentRect: Rect)
    requires Balanced(a.log)
    ensures Balanced(ApplyResize(a, rules, c, parentRect).log)
  {
    var size := PlannedViewResize(rules, c.text, parentRect, c.currentRect);
    if size.Some? {
      OneViewMore(a.log.setPos, Pos(c.child, 0, 0, size.value.0, size.value.1));
    }
  }

  lemma ChildBalances(a: Pass, g: WindowGraph, settings: Settings, rules: Rules, c: ChildContext, parentText: string, parentRect: Rect, adSignal: bool)
    requires Balanced(a.log)
    ensures Balanced(ApplyChild(a, g, settings, rules, c, parentText, parentRect, adSignal).log)
  {
    CloseBalances(a, g, rules, c, parentText, adSignal);
    var a1 := ApplyClose(a, g, rules, c, parentText, adSignal);
    ResizeBalances(a1, rules, c, parentRect);
    BannerBalances(ApplyResize(a1, rules, c, parentRect), settings, rules, c);
  }

  lemma BannerBalances(a: Pass, settings: Settings, rules: Rules, c: ChildContext)
    requires Balanced(a.log)
    ensures Balanced(ApplyAggressive(a, settings, rules, c).log)
  {
  }

  lemma {:induction false} ChildrenBalance(a: Pass, g: WindowGraph, settings: Settings, rules: Rules, ctxs: seq<ChildContext>, parentText: string,
                                           parentRect: Rect, adSignal: bool)
    requires Balanced(a.log)
    ensures Balanced(ApplyChildren(a, g, settings, rules, ctxs, parentText, parentRect, adSignal).log)
    decreases ctxs
  {
    if ctxs != [] {
      ChildBalances(a, g, settings, rules, ctxs[0], parentText, parentRect, adSignal);
      ChildrenBalance(ApplyChild(a, g, settings, rules, ctxs[0], parentText, parentRect, adSignal), g, settings, rules, ctxs[1..],
                      parentText, parentRect, adSignal);
    }
  }

  lemma {:induction false} MainsBalance(a: Pass, g: WindowGraph, settings: Settings, rules: Rules, mains: seq<Hwnd>)
    requires Balanced(a.log)
    ensures Balanced(ApplyMains(a, g, settings, rules, mains).log)
    decreases mains
  {
    if mains != [] {
      var m := mains[0];
      if m in g.nodes && g.nodes[m].rect.Some? {
        var rect := g.nodes[m].rect.value;
        var ctxs := Contexts(g, settings, rules, m, g.ChildrenOf(m), rect);
        ChildrenBalance(a, g, settings, rules, ctxs, g.nodes[m].Text(), rect, AnyAdSignal(ctxs));
      }
      MainsBalance(ApplyMain(a, g, settings, rules, m), g, settings, rules, mains[1..]);
    }
  }

  lemma {:induction false} CandidatesBalance(a: Pass, g: WindowGraph, rules: Rules, candidates: seq<Hwnd>)
    requires Balanced(a.log)
    ensures Balanced(ApplyCandidates(a, g, rules, candidates).log)
    decreases candidates
  {
    if candidates != [] {
      CandidatesBalance(ApplyCandidate(a, g, rules, candidates[0]), g, rules, candidates[1..]);
    }
  }

  lemma RetainBalances(a: PopupPass, h: Hwnd, visible: bool)
    requires Balanced(a.log)
    ensures Balanced(RetainOnce(a, h, visible).log)
  {
    OneViewMore(a.log.setPos, Pos(h, 0, 0, 0, 0));
  }

  lemma {:induction false} MatchesBalance(a: PopupPass, g: WindowGraph, rules: Rules, host: WindowNode, hits: seq<Hit>)
    requires Balanced(a.log)
    ensures Balanced(ApplyMatches(a, g, rules, host, hits).log)
    decreases hits
  {
    if hits != [] {
      var hit := hits[0];
      RetainBalances(a, host.hwnd, host.visible);
      RetainBalances(RetainOnce(a, host.hwnd, host.visible), hit.0, hit.0 in g.nodes && g.nodes[hit.0].visible);
      assert ApplyMatch(a, g, rules, host, hit).log ==
        if PopupHostGuard(rules, host).Allow?
        then RetainOnce(RetainOnce(a, host.hwnd, host.visible), hit.0, hit.0 in g.nodes && g.nodes[hit.0].visible).log else a.log;
      MatchesBalance(ApplyMatch(a, g, rules, host, hit), g, rules, host, hits[1..]);
    }
  }

  lemma {:induction false} PopupsBalance(a: PopupPass, g: WindowGraph, rules: Rules, mains: set<Hwnd>, hosts: seq<Hwnd>)
    requires Balanced(a.log)
    ensures Balanced(ApplyPopups(a, g, rules, mains, hosts).log)
    decreases hosts
  {
    if hosts != [] {
      if IsPopupHost(g, mains, hosts[0]) {
        MatchesBalance(a, g, rules, g.nodes[hosts[0]], PopupMatches(g, rules, hosts[0]));
        PopupsBalance(ApplyMatches(a, g, rules, g.nodes[hosts[0]], PopupMatches(g, rules, hosts[0])), g, rules, mains, hosts[1..]);
      } else {
        PopupsBalance(a, g, rules, mains, hosts[1..]);
      }
    }
  }

  lemma LoopsBalance(a: Pass, g: WindowGraph, settings: Settings, rules: Rules, mains: seq<Hwnd>, candidates: seq<Hwnd>, confirmed: set<Hwnd>, hosts: seq<Hwnd>)
    requires Balanced(a.log)
    ensures var a2 := ApplyCandidates(ApplyMains(a, g, settings, rules, mains), g, rules, candidates);
            Balanced(ApplyPopups(PopupPass(a2.store, a2.log, {}), g, rules, confirmed, hosts).log)
  {
    MainsBalance(a, g, settings, rules, mains);
    CandidatesBalance(ApplyMains(a, g, settings, rules, mains), g, rules, candidates);
    var a2 := ApplyCandidates(ApplyMains(a, g, settings, rules, mains), g, rules, candidates);
    PopupsBalance(PopupPass(a2.store, a2.log, {}), g, rules, confirmed, hosts);
  }

  /** After one evaluation of any graph the counters add up to the entries of the log. */
  lemma CountersAddUp(g: WindowGraph, settings: Settings, rules: Rules, states: States)
    ensures Balanced(Apply(g, settings, rules, states).log)
  {
    var mains := ConfirmedMains(g, rules);
    LoopsBalance(Pass(Store(states, {}, []), EMPTY_LOG), g, settings, rules, mains, Candidates(g, rules, Members(mains)), Members(mains), TopLevel(g));
  }
}

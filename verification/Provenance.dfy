/** Where the targets of a plan come from, and what can never be one. */
module Provenance {
  import opened Model
  import opened Ordering
  import opened Search
  import opened Signals
  import opened Evaluate
  import opened Verdicts
  import Desktop
  import Undo

  /** Every target is a direct child of a confirmed main window, a legacy candidate, or part of an
      allowed popup; only popups are zero-sized and each of them is hidden as well; main views only
      ever get a positive size and keep their position. */
  lemma PlanProvenance(g: WindowGraph, settings: Settings, rules: Rules, states: States)
    requires Forest(g)
    ensures var plan := PlanOf(Apply(g, settings, rules, states).log);
            var mains := Members(ConfirmedMains(g, rules));
            && (forall h | h in plan.hide ::
                  MainChild(g, mains, h) || LegacyCandidate(g, rules, mains, h) || PopupPart(g, rules, mains, h))
            && (forall h | h in plan.close :: MainChild(g, mains, h) || PopupPart(g, rules, mains, h))
            && (forall p | p in plan.setPos ::
                  if p.ViewResize() then MainChild(g, mains, p.hwnd) && p.x == 0 && p.y == 0
                  else p == Pos(p.hwnd, 0, 0, 0, 0) && PopupPart(g, rules, mains, p.hwnd) && p.hwnd in plan.hide)
  {
    var done := ApplyFits(g, settings, rules, states);
    var log := Apply(g, settings, rules, states).log;
    SortedSeqSorts(Members(log.hides));
    SortedSeqSorts(Members(log.closes));
  }

  /** The engine's assumption about plans holds of every plan the decision core makes. */
  lemma PlansFitTheEngine(g: WindowGraph, settings: Settings, rules: Rules, states: States)
    requires Forest(g)
    ensures Undo.PlanFits(g, PlanOf(Apply(g, settings, rules, states).log))
  {
    PlanProvenance(g, settings, rules, states);
    var plan := PlanOf(Apply(g, settings, rules, states).log);
    var mains := Members(ConfirmedMains(g, rules));
    forall p | p in plan.setPos && p.ViewResize()
      ensures p.hwnd in g.nodes && g.nodes[p.hwnd].structuralParent.Some?
    {
      var m :| m in mains && p.hwnd in g.ChildrenOf(m) && IsTreeChild(g, m, p.hwnd);
    }
  }

  /** A view resize that went through is not planned again: the size it gives is the one wanted. */
  lemma ViewResizeSettles(rules: Rules, text: string, parent: Rect, current: Option<Rect>)
    requires var p := PlannedViewResize(rules, text, parent, current);
             p.Some? && p.value.0 <= I32_MAX && p.value.1 <= I32_MAX
    ensures var (width, height) := PlannedViewResize(rules, text, parent, current).value;
            && width >= 1 && height >= 1
            && PlannedViewResize(rules, text, parent, Some(Desktop.Placed(current, 0, 0, width, height, true))) == None
  {
  }

  lemma MainsAreTopLevel(g: WindowGraph, rules: Rules)
    ensures forall m | m in ConfirmedMains(g, rules) :: m in TopLevel(g) && IsConfirmedMain(g, rules, m)
    ensures forall h | h in TopLevel(g) :: h in g.nodes && g.nodes[h].structuralParent.None?
  {
    TopLevelIs(g);
    FilteredKeeps(TopLevel(g), h => IsConfirmedMain(g, rules, h));
  }

  /** A popup part is a host that is not a main window, or a window below one. */
  lemma PopupPartIsNotMain(g: WindowGraph, rules: Rules, m: Hwnd)
    requires Forest(g) && m in ConfirmedMains(g, rules)
    ensures !PopupPart(g, rules, Members(ConfirmedMains(g, rules)), m)
  {
    MainsAreTopLevel(g, rules);
    var mainSeq := ConfirmedMains(g, rules);
    forall host, hit | host in TopLevel(g) && IsPopupHost(g, Members(mainSeq), host) && hit in PopupMatches(g, rules, host)
      ensures m != host && m != hit.0
    {
      MatchIsNew(g, rules, mainSeq, host, hit);
    }
  }

  /** A confirmed main window without a legacy title in its subtree is never a target; one with such a
      title is a hide candidate if and only if its class is a candidate class. */
  lemma MainWindowIsTargetOnlyIfLegacy(g: WindowGraph, settings: Settings, rules: Rules, states: States, m: Hwnd)
    requires Forest(g) && 0 !in g.nodes
    requires m in ConfirmedMains(g, rules)
    ensures var plan := PlanOf(Apply(g, settings, rules, states).log);
            var mains := Members(ConfirmedMains(g, rules));
            && m !in plan.close
            && (forall p | p in plan.setPos :: p.hwnd != m)
            && (LegacySignatureKind(g, rules, m).NoLegacy? ==> m !in plan.hide)
            && (m in Candidates(g, rules, mains) <==>
                  (!LegacySignatureKind(g, rules, m).NoLegacy? && g.nodes[m].className in rules.adCandidateClasses))
  {
    PlanProvenance(g, settings, rules, states);
    PopupPartIsNotMain(g, rules, m);
    MainsAreTopLevel(g, rules);
    var mains := Members(ConfirmedMains(g, rules));
    FilteredKeeps(TopLevel(g), h => IsCandidate(g, rules, mains, h));
    assert !MainChild(g, mains, m);
    assert 0 !in mains;
  }
}

/** When one evaluation matches a window twice: exactly if the two shapes of a main window's child overlap. */
module Overlap {
  import opened Model
  import opened Ordering
  import opened Search
  import opened Tokens
  import opened Signals
  import opened Evaluate
  import opened LockStep
  import opened Verdicts
  import opened Evidence

  predicate MatchFor(v: Verdict, h: Hwnd) { v.decision.Matched() && v.identity.hwnd == h }

  /** Two matches of one window in one list of verdicts. */
  predicate MatchedTwice(vs: seq<Verdict>, h: Hwnd) {
    exists i, j :: 0 <= i < j < |vs| && MatchFor(vs[i], h) && MatchFor(vs[j], h)
  }

  /** The configuration makes EVA children chrome widgets, and this child has both shapes. */
  predicate OverlapsBelow(g: WindowGraph, settings: Settings, rules: Rules, m: Hwnd, h: Hwnd) {
    && settings.aggressiveMode && IsChromeWidgetClass(rules, rules.evaChildClass)
    && Inspected(g, m) && InList(g.ChildrenOf(m), h) && IsTreeChild(g, m, h)
    && g.nodes[h].className == rules.evaChildClass && g.nodes[h].Text() == "" && g.nodes[m].Text() != ""
    && !ClassNameStartsWith(g, h, rules.customScrollPrefix)
    && g.nodes[h].rect.Some?
    && (SubtreeContainsAdToken(g, rules, h)
        || (rules.hideBottomBannerWithoutToken && IsBottomBanner(rules, g.nodes[h].rect.value, g.nodes[m].rect.value)))
  }

  predicate Overlaps(g: WindowGraph, settings: Settings, rules: Rules, h: Hwnd) {
    var mains := ConfirmedMains(g, rules);
    exists i :: 0 <= i < |mains| && OverlapsBelow(g, settings, rules, mains[i], h)
  }

  /** Overlapping means showing the evidence for closing and for hiding; the banner itself is the
      advertisement the empty EVA child may need. */
  lemma OverlapIsBoth(g: WindowGraph, settings: Settings, rules: Rules, m: Hwnd, h: Hwnd)
    ensures OverlapsBelow(g, settings, rules, m, h) <==>
              MainChildShows(g, settings, rules, m, h, Close) && MainChildShows(g, settings, rules, m, h, Hide)
  {
    if OverlapsBelow(g, settings, rules, m, h) {
      var k :| 0 <= k < |g.ChildrenOf(m)| && g.ChildrenOf(m)[k] == h;
      assert ShowsAd(g, settings, rules, m, g.ChildrenOf(m)[k]);
    }
  }

  /** A child of a confirmed main window is neither a top-level window nor below another main window. */
  lemma ChildHasOneMain(g: WindowGraph, rules: Rules, m: Hwnd, n: Hwnd, h: Hwnd)
    requires Forest(g) && InList(g.ChildrenOf(m), h)
    ensures InList(g.ChildrenOf(n), h) ==> m == n
    ensures !InList(Candidates(g, rules, Members(ConfirmedMains(g, rules))), h)
  {
    var mains := Members(ConfirmedMains(g, rules));
    FilteredKeeps(TopLevel(g), h => IsCandidate(g, rules, mains, h));
    TopLevelIs(g);
    var k :| 0 <= k < |g.ChildrenOf(m)| && g.ChildrenOf(m)[k] == h;
    if InList(g.ChildrenOf(n), h) {
      OneParent(g, m, n, h);
    }
    if InList(Candidates(g, rules, mains), h) {
      NotAChild(g, m, h);
    }
  }

  /** In one evaluation a window is matched twice if and only if it is a child of a confirmed main window
      that has both shapes. */
  lemma MatchedTwiceExactlyIfOverlapping(g: WindowGraph, settings: Settings, rules: Rules, states: States, h: Hwnd)
    requires Forest(g)
    ensures MatchedTwice(Apply(g, settings, rules, states).store.verdicts, h) <==> Overlaps(g, settings, rules, h)
  {
    var vs, mains := Apply(g, settings, rules, states).store.verdicts, ConfirmedMains(g, rules);
    var done := ApplyFits(g, settings, rules, states);
    if MatchedTwice(vs, h) {
      var i, j :| 0 <= i < j < |vs| && MatchFor(vs[i], h) && MatchFor(vs[j], h);
      MatchShows(g, settings, rules, states, i, Close);
      MatchShows(g, settings, rules, states, j, Hide);
      var a :| 0 <= a < |mains| && MainChildShows(g, settings, rules, mains[a], h, Close);
      ChildHasOneMain(g, rules, mains[a], mains[a], h);
      var b :| 0 <= b < |mains| && MainChildShows(g, settings, rules, mains[b], h, Hide);
      ChildHasOneMain(g, rules, mains[a], mains[b], h);
      OverlapIsBoth(g, settings, rules, mains[a], h);
    }
    if Overlaps(g, settings, rules, h) {
      var a :| 0 <= a < |mains| && OverlapsBelow(g, settings, rules, mains[a], h);
      OverlapIsBoth(g, settings, rules, mains[a], h);
      MatchedExactlyOnEvidence(g, settings, rules, states, h, Close);
      MatchedExactlyOnEvidence(g, settings, rules, states, h, Hide);
      var id := g.nodes[h].Identity();
      var i := Find(vs, id, Close);
      var j := Find(vs, id, Hide);
      assert MatchFor(vs[i], h) && MatchFor(vs[j], h) && i != j;
      assert i < j ==> MatchedTwice(vs, h);
    }
  }

  lemma MatchShows(g: WindowGraph, settings: Settings, rules: Rules, states: States, k: nat, action: ActionKind)
    requires Forest(g)
    requires var vs := Apply(g, settings, rules, states).store.verdicts;
             k < |vs| && vs[k].decision.Matched() && vs[k].decision.action == action
    ensures Shows(g, settings, rules, Apply(g, settings, rules, states).store.verdicts[k].identity.hwnd, action)
  {
    var vs := Apply(g, settings, rules, states).store.verdicts;
    assert IsMatch(vs[k], vs[k].identity, action);
    MatchedIsNode(g, settings, rules, states, vs[k].identity, action);
    MatchedExactlyOnEvidence(g, settings, rules, states, vs[k].identity.hwnd, action);
  }

  lemma Find(vs: seq<Verdict>, id: WindowIdentity, action: ActionKind) returns (k: nat)
    requires Recorded(vs, id, action)
    ensures k < |vs| && IsMatch(vs[k], id, action)
  {
    var v :| v in vs && IsMatch(v, id, action);
    k :| k < |vs| && vs[k] == v;
  }

  /** With an EVA child class that carries no chrome widget prefix, no window is ever matched twice. */
  lemma DistinctClassesNeverOverlap(g: WindowGraph, settings: Settings, rules: Rules, states: States, h: Hwnd)
    requires Forest(g) && !IsChromeWidgetClass(rules, rules.evaChildClass)
    ensures !MatchedTwice(Apply(g, settings, rules, states).store.verdicts, h)
  {
    MatchedTwiceExactlyIfOverlapping(g, settings, rules, states, h);
  }

  // ---------------------------------------------------------------- two matches in one tick

  /** An EVA class that is also a widget class, two confirming ticks, and one advertisement token. */
  const RULES := Rules(["Main"], [], "View", "Lock", "Eva", "Scroll", "Legacy", [], ["Eva"], [], 8, [], false, ["banner"],
                       0, 0, 1.0, 0, false, true, 0, 0, 2, s => s, s => s)

  function NodeOf(h: Hwnd, className: string, text: string, parent: Option<Hwnd>): WindowNode {
    WindowNode(h, 7, className, Known(text), parent, None, Some(Rect(0, 0, 10, 10)), true)
  }

  /** A main window (1) with its view (2) and an empty EVA child (3) around an advertisement (4). */
  const GRAPH := WindowGraph({7},
    map[1 := NodeOf(1, "Main", "Talk", None),
        2 := NodeOf(2, "Eva", "View", Some(1)),
        3 := NodeOf(3, "Eva", "", Some(1)),
        4 := NodeOf(4, "Ad", "banner", Some(3))],
    map[1 := [2, 3], 3 := [4]])

  lemma OnlyMain()
    ensures ConfirmedMains(GRAPH, RULES) == [1]
  {
    assert (set h | h in GRAPH.nodes && GRAPH.nodes[h].structuralParent.None? && GRAPH.nodes[h].pid in GRAPH.pids) == {1};
    SortedSeqSorts({1});
    assert SortedSeq({1}) == [1];
    assert 2 in GRAPH.ChildrenOf(1);
    assert StartsWith(GRAPH.nodes[2].Text(), RULES.mainViewPrefix);
    assert IsConfirmedMain(GRAPH, RULES, 1);
  }

  const ON := Settings(true)

  /** The child has both shapes: no scroll area, and an advertisement one level below. */
  lemma ChildOverlaps()
    ensures OverlapsBelow(GRAPH, ON, RULES, 1, 3)
    ensures var c := ContextOf(GRAPH, ON, RULES, 3, GRAPH.nodes[1].rect.value);
            c.aggressive.Matched() && c.aggressive.strength.Weak? && c.adSignal
  {
    assert RULES.chromeWidgetPrefixes == ["Eva"] && "Eva" in RULES.chromeWidgetPrefixes;
    assert StartsWith("Eva", "Eva");
    assert GRAPH.ChildrenOf(1)[1] == 3;
    assert !ClassNameStartsWith(GRAPH, 3, "Scroll") by {
      var test := (n: WindowNode) => StartsWith(n.className, "Scroll");
      assert !StartsWith("Eva", "Scroll") && !StartsWith("Ad", "Scroll");
      assert GRAPH.ChildrenOf(4) == [];
      assert !SubtreeAny(GRAPH, test, 4, 7);
    }
    assert SubtreeContainsAdToken(GRAPH, RULES, 3) by {
      ShowsToken();
    }
  }

  lemma ShowsToken()
    ensures SubtreeContainsAdToken(GRAPH, RULES, 3)
  {
    var tokens := Lowered(RULES.aggressiveAdTokens, RULES.lower);
    var test := (n: WindowNode) => ContainsAnyToken(tokens, RULES.lower(n.Text()));
    assert tokens == ["banner"] && "banner" in tokens;
    assert OccursAt("banner", "banner", 0);
    assert Matches("banner", "banner");
    assert GRAPH.nodes[4].Text() == "banner";
    assert ContainsAnyToken(["banner"], "banner") by {
      assert "banner" in ["banner"];
    }
    assert test(GRAPH.nodes[4]);
    assert 4 in GRAPH.ChildrenOf(3);
    assert SubtreeAny(GRAPH, test, 4, 7);
  }

  /** A child whose two shapes both match is confirmed on weak evidence at once. */
  lemma SecondMatchConfirms(a: Pass, c: ChildContext, parentText: string, parentRect: Rect, adSignal: bool)
    requires StreakIn(a.store.states, c.identity) >= 0
    requires var close := CloseVerdict(GRAPH, RULES, c, parentText, adSignal); close.Some? && close.value.Matched()
    requires c.childRect.Some? && c.aggressive.Matched() && c.aggressive.strength.Weak?
    ensures var vs := ApplyChild(a, GRAPH, ON, RULES, c, parentText, parentRect, adSignal).store.verdicts;
            vs != [] && vs[|vs| - 1].confirmed && vs[|vs| - 1].decision.strength.Weak?
  {
  }

  const VIEW := ContextOf(GRAPH, ON, RULES, 2, Rect(0, 0, 10, 10))
  const EMPTY := ContextOf(GRAPH, ON, RULES, 3, Rect(0, 0, 10, 10))

  lemma BothAreLookedAt()
    ensures Contexts(GRAPH, ON, RULES, 1, [2, 3], Rect(0, 0, 10, 10)) == [VIEW, EMPTY]
  {
    assert Contexts(GRAPH, ON, RULES, 1, [3], Rect(0, 0, 10, 10)) == [EMPTY];
  }

  lemma TwoChildren(a: Pass, g: WindowGraph, settings: Settings, rules: Rules, c: ChildContext, d: ChildContext,
                    parentText: string, parentRect: Rect, adSignal: bool)
    ensures ApplyChildren(a, g, settings, rules, [c, d], parentText, parentRect, adSignal)
         == ApplyChild(ApplyChild(a, g, settings, rules, c, parentText, parentRect, adSignal), g, settings, rules, d, parentText, parentRect, adSignal)
  {
    var a1 := ApplyChild(a, g, settings, rules, c, parentText, parentRect, adSignal);
    assert ApplyChildren(a1, g, settings, rules, [d], parentText, parentRect, adSignal)
        == ApplyChild(a1, g, settings, rules, d, parentText, parentRect, adSignal);
  }

  lemma OtherStreaksStay(a: Pass, g: WindowGraph, settings: Settings, rules: Rules, c: ChildContext,
                         parentText: string, parentRect: Rect, adSignal: bool, id: WindowIdentity)
    requires id != c.identity
    ensures StreakIn(ApplyChild(a, g, settings, rules, c, parentText, parentRect, adSignal).store.states, id) == StreakIn(a.store.states, id)
  {
  }

  /** A main window with two children, of which the second carries an advertisement. */
  lemma MainOfTwo(a: Pass, g: WindowGraph, settings: Settings, rules: Rules, m: Hwnd, c: ChildContext, d: ChildContext)
    requires m in g.nodes && g.nodes[m].pid in g.pids && g.nodes[m].rect.Some? && d.adSignal
    requires Contexts(g, settings, rules, m, g.ChildrenOf(m), g.nodes[m].rect.value) == [c, d]
    ensures var text, rect := g.nodes[m].Text(), g.nodes[m].rect.value;
            ApplyMain(a, g, settings, rules, m)
              == ApplyChild(ApplyChild(a, g, settings, rules, c, text, rect, true), g, settings, rules, d, text, rect, true)
  {
    assert d in [c, d] && AnyAdSignal([c, d]);
    TwoChildren(a, g, settings, rules, c, d, g.nodes[m].Text(), g.nodes[m].rect.value, true);
  }

  lemma MainIsConfirmed(a: Pass) returns (v: Verdict)
    requires a.store.states == map[]
    ensures v in ApplyMain(a, GRAPH, ON, RULES, 1).store.verdicts && v.confirmed && v.decision.strength.Weak?
  {
    var rect := Rect(0, 0, 10, 10);
    ChildOverlaps();
    BothAreLookedAt();
    MainOfTwo(a, GRAPH, ON, RULES, 1, VIEW, EMPTY);
    var a1 := ApplyChild(a, GRAPH, ON, RULES, VIEW, "Talk", rect, true);
    OtherStreaksStay(a, GRAPH, ON, RULES, VIEW, "Talk", rect, true, EMPTY.identity);
    SecondMatchConfirms(a1, EMPTY, "Talk", rect, true);
    var a2 := ApplyChild(a1, GRAPH, ON, RULES, EMPTY, "Talk", rect, true);
    v := a2.store.verdicts[|a2.store.verdicts| - 1];
  }

  lemma NothingElse()
    ensures Candidates(GRAPH, RULES, {1}) == [] && TopLevel(GRAPH) == [1]
  {
    assert (set h | h in GRAPH.nodes && GRAPH.nodes[h].structuralParent.None? && GRAPH.nodes[h].pid in GRAPH.pids) == {1};
    SortedSeqSorts({1});
    assert SortedSeq({1}) == [1];
    assert !IsCandidate(GRAPH, RULES, {1}, 1);
  }

  lemma OneMainAlone(g: WindowGraph, settings: Settings, rules: Rules, states: States, m: Hwnd)
    requires TopLevel(g) == [m] && ConfirmedMains(g, rules) == [m] && Candidates(g, rules, {m}) == []
    ensures Apply(g, settings, rules, states).store == ApplyMain(Pass(Store(states, {}, []), EMPTY_LOG), g, settings, rules, m).store
  {
    assert Members([m]) == {m};
    var a := ApplyMain(Pass(Store(states, {}, []), EMPTY_LOG), g, settings, rules, m);
    assert ApplyMains(Pass(Store(states, {}, []), EMPTY_LOG), g, settings, rules, [m]) == a;
    assert ApplyPopups(PopupPass(a.store, a.log, {}), g, rules, {m}, [m]).store == a.store;
  }

  lemma GraphIsForest()
    ensures Forest(GRAPH)
  {
  }

  lemma OverlapAt(g: WindowGraph, settings: Settings, rules: Rules, m: Hwnd, h: Hwnd)
    requires ConfirmedMains(g, rules) == [m] && OverlapsBelow(g, settings, rules, m, h)
    ensures Overlaps(g, settings, rules, h)
  {
    assert OverlapsBelow(g, settings, rules, ConfirmedMains(g, rules)[0], h);
  }

  predicate ConfirmedWeakly(vs: seq<Verdict>) { exists v :: v in vs && v.confirmed && v.decision.strength.Weak? }

  lemma WeakInStore(g: WindowGraph, settings: Settings, rules: Rules, m: Hwnd, v: Verdict)
    requires TopLevel(g) == [m] && ConfirmedMains(g, rules) == [m] && Candidates(g, rules, {m}) == []
    requires v in ApplyMain(Pass(Store(map[], {}, []), EMPTY_LOG), g, settings, rules, m).store.verdicts
    requires v.confirmed && v.decision.strength.Weak?
    ensures ConfirmedWeakly(Apply(g, settings, rules, map[]).store.verdicts)
  {
    OneMainAlone(g, settings, rules, map[], m);
  }

  /** Two matches of the same child confirm a weak verdict in the very first tick, although two ticks
      are asked for. */
  lemma OneTickConfirmsWeakly()
    ensures Forest(GRAPH) && RULES.weakSignalConfirmTicks == 2 && Overlaps(GRAPH, ON, RULES, 3)
    ensures ConfirmedWeakly(Apply(GRAPH, ON, RULES, map[]).store.verdicts)
  {
    GraphIsForest();
    OnlyMain();
    NothingElse();
    ChildOverlaps();
    OverlapAt(GRAPH, ON, RULES, 1, 3);
    var v := MainIsConfirmed(Pass(Store(map[], {}, []), EMPTY_LOG));
    WeakInStore(GRAPH, ON, RULES, 1, v);
  }
}

/** What one evaluation does to every single window, said without its loops: the new streaks, whether the
    window is to be hidden or closed, and where it is placed, from the window's own evidence. */
module Law {
  import opened Model
  import opened Arithmetic
  import opened Ordering
  import opened Search
  import opened Tokens
  import opened Signals
  import opened Evaluate
  import opened Evidence
  import Verdicts
  import opened Cells

  type Streaks = Option<CandidateState>

  // ---------------------------------------------------------------- children of main windows

  /** `h` is looked at as a child of the confirmed main window `m`. */
  predicate ChildOf(g: WindowGraph, rules: Rules, m: Hwnd, h: Hwnd) {
    m in ConfirmedMains(g, rules) && LooksAt(g, m) && h in g.ChildrenOf(m) && IsTreeChild(g, m, h)
  }

  /** An EVA child without text below a main window with text, whether or not it is to be closed. */
  predicate EvaShape(g: WindowGraph, rules: Rules, m: Hwnd, h: Hwnd)
    requires m in g.nodes && h in g.nodes
  {
    g.nodes[h].className == rules.evaChildClass && g.nodes[h].Text() == "" && g.nodes[m].Text() != ""
  }

  /** Banners are hidden at once, mere token children only after confirmation. */
  predicate ShowsSureBanner(g: WindowGraph, settings: Settings, rules: Rules, m: Hwnd, h: Hwnd)
    requires m in g.nodes && h in g.nodes
  {
    ShowsBanner(g, settings, rules, m, h) && IsBottomBanner(rules, g.nodes[h].rect.value, g.nodes[m].rect.value)
  }

  predicate LookedAtForBanner(g: WindowGraph, settings: Settings, h: Hwnd)
    requires h in g.nodes
  {
    settings.aggressiveMode && g.nodes[h].rect.Some?
  }

  function Hit(st: Streaks): CandidateState { Counted(st, true) }

  function Miss(st: Streaks): CandidateState { Counted(st, false) }

  /** The streaks of a child: a match for each kind of evidence it shows; without any, one miss if it is
      known already, or if only the advertisement in its company is lacking. */
  function ChildStreaks(g: WindowGraph, settings: Settings, rules: Rules, m: Hwnd, h: Hwnd, st: Streaks): Streaks
    requires m in g.nodes && h in g.nodes
  {
    var close, banner := ShowsEmptyEva(g, settings, rules, m, h), ShowsBanner(g, settings, rules, m, h);
    var shape, looked := EvaShape(g, rules, m, h), LookedAtForBanner(g, settings, h);
    if close && banner then Some(Hit(Some(Hit(st))))
    else if close then Some(Hit(st))
    else if banner then Some(if shape && st.Some? then CandidateState(1, 0) else Hit(st))
    else if st.Some? && (shape || looked) then Some(Miss(st))
    else if shape && !ClassNameStartsWith(g, h, rules.customScrollPrefix) then Some(CandidateState(0, 1))
    else st
  }

  predicate Confirms(rules: Rules, st: CandidateState) { st.matchStreak >= Max(rules.weakSignalConfirmTicks, 1) }

  /** The size a view should have: the whole parent but for the shadow at its side and, for the main view,
      the strip below it. */
  predicate ViewSize(rules: Rules, text: string, parent: Rect, width: int, height: int) {
    && (StartsWith(text, rules.mainViewPrefix) || StartsWith(text, rules.lockViewPrefix))
    && parent.Width() - width == rules.layoutShadowPaddingPx
    && parent.Height() - height == (if StartsWith(text, rules.mainViewPrefix) then rules.mainViewPaddingPx else 0)
    && width >= 1 && height >= 1
  }

  predicate HasSize(rect: Option<Rect>, width: int, height: int) {
    rect.Some? && rect.value.Width() == width && rect.value.Height() == height
  }

  /** The child is a view, and not of the size it should have. */
  predicate WantsSize(g: WindowGraph, rules: Rules, m: Hwnd, h: Hwnd, width: int, height: int)
    requires LooksAt(g, m) && h in g.nodes
  {
    ViewSize(rules, g.nodes[h].Text(), g.nodes[m].rect.value, width, height) && !HasSize(g.nodes[h].rect, width, height)
  }

  lemma SizeIsPlanned(rules: Rules, text: string, parent: Rect, current: Option<Rect>, width: int, height: int)
    ensures PlannedViewResize(rules, text, parent, current) == Some((width, height)) <==>
              ViewSize(rules, text, parent, width, height) && !HasSize(current, width, height)
  {
  }

  /** What the verdicts on a child stand for. */
  lemma ChildEvidence(g: WindowGraph, settings: Settings, rules: Rules, m: Hwnd, h: Hwnd)
    requires LooksAt(g, m) && IsTreeChild(g, m, h)
    ensures var rect := g.nodes[m].rect.value;
            var ctx, signal := ContextOf(g, settings, rules, h, rect), AnyAdSignal(Contexts(g, settings, rules, m, g.ChildrenOf(m), rect));
            var close := CloseVerdict(g, rules, ctx, g.nodes[m].Text(), signal);
            && (close.Some? <==> EvaShape(g, rules, m, h))
            && (close.Some? ==>
                  && (close.value.Matched() <==> ShowsEmptyEva(g, settings, rules, m, h)) && !close.value.strength.Strong?
                  && (close.value.signals.HasRelevantSignal() <==> !ClassNameStartsWith(g, h, rules.customScrollPrefix)))
            && (ctx.childRect.Some? && settings.aggressiveMode <==> LookedAtForBanner(g, settings, h))
            && (ctx.aggressive.Matched() <==> ShowsBanner(g, settings, rules, m, h))
            && (ctx.aggressive.Matched() ==>
                  ctx.aggressive.action.Hide? && (ctx.aggressive.strength.Strong? <==> ShowsSureBanner(g, settings, rules, m, h)))
  {
    BannerMeans(g, settings, rules, m, h);
    ChildDecidesMeans(g, settings, rules, m, h, Close);
    if rules.closeEmptyEvaChildRequiresAdSignal {
      AdSignalMeans(g, settings, rules, m);
    }
  }

  /** A banner is the advertisement an empty EVA child needs beside it. */
  lemma BannerIsCompany(g: WindowGraph, settings: Settings, rules: Rules, m: Hwnd, h: Hwnd)
    requires LooksAt(g, m) && h in g.ChildrenOf(m) && IsTreeChild(g, m, h)
    requires ShowsBanner(g, settings, rules, m, h) && EvaShape(g, rules, m, h)
    ensures ShowsEmptyEva(g, settings, rules, m, h) <==> !ClassNameStartsWith(g, h, rules.customScrollPrefix)
  {
    var k :| 0 <= k < |g.ChildrenOf(m)| && g.ChildrenOf(m)[k] == h;
    assert ShowsAd(g, settings, rules, m, g.ChildrenOf(m)[k]);
  }

  lemma CloseOutcome(c: Cell, close: Option<AdDecision>, ticks: int, shows: bool)
    requires !c.touched && !c.closed
    requires close.Some? ==> (close.value.Matched() <==> shows) && !close.value.strength.Strong?
    requires shows ==> close.Some?
    ensures var tracked := close.Some? && (c.state.Some? || close.value.signals.HasRelevantSignal());
            var c' := CloseLaw(c, close, ticks);
            && c'.state == (if shows then Some(Hit(c.state)) else if tracked then Some(Miss(c.state)) else c.state)
            && c'.touched == (shows || tracked)
            && c'.closed == (shows && Hit(c.state).matchStreak >= Max(ticks, 1))
            && c'.hidden == c.hidden && c'.places == c.places
  {
  }

  lemma BannerOutcome(c: Cell, banner: Option<AdDecision>, ticks: int, shows: bool, sure: bool)
    requires banner.Some? ==> (banner.value.Matched() <==> shows) && (shows ==> banner.value.action.Hide? && (banner.value.strength.Strong? <==> sure))
    requires shows ==> banner.Some?
    ensures var c' := BannerLaw(c, banner, ticks);
            && c'.state == (if shows then Some(Hit(c.state)) else if banner.Some? && c.state.Some? && !c.touched then Some(Miss(c.state)) else c.state)
            && c'.hidden == (c.hidden || (shows && (sure || Hit(c.state).matchStreak >= Max(ticks, 1))))
            && c'.closed == c.closed && c'.places == c.places
  {
  }

  /** Nothing has been recorded for this tick. */
  predicate Untried(c: Cell) { !c.touched && !c.hidden && !c.closed && c.places == [] }

  /** The verdicts on a child of `m`, and what follows from them. */
  predicate JudgedAsChild(g: WindowGraph, settings: Settings, rules: Rules, m: Hwnd, h: Hwnd, c: Cell, c': Cell)
    requires m in g.nodes && h in g.nodes
  {
    && c'.state == ChildStreaks(g, settings, rules, m, h, c.state)
    && (c'.closed <==> ShowsEmptyEva(g, settings, rules, m, h) && Confirms(rules, Hit(c.state)))
    && (c'.hidden <==> ShowsBanner(g, settings, rules, m, h)
                        && (ShowsSureBanner(g, settings, rules, m, h) || Confirms(rules, c'.state.value)))
  }

  /** The child is placed at most once, and only as a view that wants another size. */
  ghost predicate PlacedAsChild(g: WindowGraph, rules: Rules, m: Hwnd, h: Hwnd, places: seq<Pos>)
    requires LooksAt(g, m) && h in g.nodes
  {
    && (forall width, height :: WantsSize(g, rules, m, h, width, height) <==> places == [Pos(h, 0, 0, width, height)])
    && |places| <= 1 && forall p | p in places :: p.ViewResize() && p == Pos(h, 0, 0, p.width, p.height)
  }

  function ContextIn(g: WindowGraph, settings: Settings, rules: Rules, m: Hwnd, h: Hwnd): ChildContext
    requires LooksAt(g, m) && h in g.nodes
  {
    ContextOf(g, settings, rules, h, g.nodes[m].rect.value)
  }

  /** What the pass makes of the child, from what it has recorded about it. */
  function CellAsChild(g: WindowGraph, settings: Settings, rules: Rules, m: Hwnd, h: Hwnd, c: Cell): Cell
    requires LooksAt(g, m) && h in g.nodes
  {
    var rect := g.nodes[m].rect.value;
    ChildCell(c, g, settings, rules, ContextIn(g, settings, rules, m, h), g.nodes[m].Text(), rect,
              AnyAdSignal(Contexts(g, settings, rules, m, g.ChildrenOf(m), rect)))
  }

  lemma ChildVerdicts(g: WindowGraph, settings: Settings, rules: Rules, m: Hwnd, h: Hwnd, c: Cell)
    requires LooksAt(g, m) && h in g.ChildrenOf(m) && IsTreeChild(g, m, h) && Untried(c)
    ensures JudgedAsChild(g, settings, rules, m, h, c, CellAsChild(g, settings, rules, m, h, c))
  {
    var rect := g.nodes[m].rect.value;
    var ctx, signal := ContextIn(g, settings, rules, m, h), AnyAdSignal(Contexts(g, settings, rules, m, g.ChildrenOf(m), rect));
    ChildEvidence(g, settings, rules, m, h);
    if ShowsBanner(g, settings, rules, m, h) && EvaShape(g, rules, m, h) {
      BannerIsCompany(g, settings, rules, m, h);
    }
    var close := CloseVerdict(g, rules, ctx, g.nodes[m].Text(), signal);
    var banner := if settings.aggressiveMode && ctx.childRect.Some? then Some(ctx.aggressive) else None;
    var ticks := rules.weakSignalConfirmTicks;
    CloseOutcome(c, close, ticks, ShowsEmptyEva(g, settings, rules, m, h));
    var c1 := ResizeLaw(CloseLaw(c, close, ticks), h, PlannedViewResize(rules, ctx.text, rect, ctx.currentRect));
    BannerOutcome(c1, banner, ticks, ShowsBanner(g, settings, rules, m, h), ShowsSureBanner(g, settings, rules, m, h));
  }

  function PlacesFor(h: Hwnd, size: Option<(int, int)>): seq<Pos> {
    match size
    case None => []
    case Some((width, height)) => [Pos(h, 0, 0, width, height)]
  }

  lemma LawPlaces(c: Cell, h: Hwnd, close: Option<AdDecision>, size: Option<(int, int)>, banner: Option<AdDecision>, ticks: int)
    requires c.places == []
    ensures ChildLaw(c, h, close, size, banner, ticks).places == PlacesFor(h, size)
  {
  }

  lemma PlacesForMeans(h: Hwnd, size: Option<(int, int)>, width: int, height: int)
    ensures size == Some((width, height)) <==> PlacesFor(h, size) == [Pos(h, 0, 0, width, height)]
  {
  }

  lemma ChildPlaces(g: WindowGraph, settings: Settings, rules: Rules, m: Hwnd, h: Hwnd, c: Cell)
    requires LooksAt(g, m) && h in g.nodes && c.places == []
    ensures PlacedAsChild(g, rules, m, h, CellAsChild(g, settings, rules, m, h, c).places)
  {
    var rect, ctx := g.nodes[m].rect.value, ContextIn(g, settings, rules, m, h);
    var size := PlannedViewResize(rules, ctx.text, rect, ctx.currentRect);
    LawPlaces(c, h, CloseVerdict(g, rules, ctx, g.nodes[m].Text(), AnyAdSignal(Contexts(g, settings, rules, m, g.ChildrenOf(m), rect))), size,
              if settings.aggressiveMode && ctx.childRect.Some? then Some(ctx.aggressive) else None, rules.weakSignalConfirmTicks);
    forall width, height
      ensures WantsSize(g, rules, m, h, width, height) <==> PlacesFor(h, size) == [Pos(h, 0, 0, width, height)]
    {
      SizeIsPlanned(rules, ctx.text, rect, ctx.currentRect, width, height);
      PlacesForMeans(h, size, width, height);
    }
    if size.Some? {
      SizeIsPlanned(rules, ctx.text, rect, ctx.currentRect, size.value.0, size.value.1);
    }
  }

  /** The child's turn. */
  lemma ChildTurn(a: Pass, g: WindowGraph, settings: Settings, rules: Rules, m: Hwnd, h: Hwnd)
    requires Forest(g) && ChildOf(g, rules, m, h) && Untried(CellOf(a.store, a.log, g.nodes[h].Identity()))
    ensures var id, a' := g.nodes[h].Identity(), ApplyMain(a, g, settings, rules, m);
            && JudgedAsChild(g, settings, rules, m, h, CellOf(a.store, a.log, id), CellOf(a'.store, a'.log, id))
            && PlacedAsChild(g, rules, m, h, CellOf(a'.store, a'.log, id).places)
  {
    MainOwn(a, g, settings, rules, m, h);
    ChildVerdicts(g, settings, rules, m, h, CellOf(a.store, a.log, g.nodes[h].Identity()));
    ChildPlaces(g, settings, rules, m, h, CellOf(a.store, a.log, g.nodes[h].Identity()));
  }

  // ---------------------------------------------------------------- the whole evaluation

  /** What the evaluation has recorded about a window in the end. */
  function Outcome(g: WindowGraph, settings: Settings, rules: Rules, states: States, id: WindowIdentity): Cell {
    var a := Apply(g, settings, rules, states);
    CellOf(a.store, a.log, id)
  }

  function Blank(states: States, id: WindowIdentity): Cell { Cell(StateIn(states, id), false, false, false, []) }

  function MainSet(g: WindowGraph, rules: Rules): set<Hwnd> { Members(ConfirmedMains(g, rules)) }

  lemma MainsAscend(g: WindowGraph, rules: Rules)
    ensures Ascending(ConfirmedMains(g, rules)) && Roots(g, TopLevel(g))
    ensures forall m | m in ConfirmedMains(g, rules) :: m in g.nodes && g.nodes[m].structuralParent.None?
  {
    Verdicts.TopLevelIs(g);
    FilteredKeeps(TopLevel(g), h => IsConfirmedMain(g, rules, h));
  }

  lemma CandidatesAscend(g: WindowGraph, rules: Rules)
    ensures Ascending(Candidates(g, rules, MainSet(g, rules)))
    ensures forall h :: h in Candidates(g, rules, MainSet(g, rules)) <==> h in TopLevel(g) && IsCandidate(g, rules, MainSet(g, rules), h)
  {
    Verdicts.TopLevelIs(g);
    FilteredKeeps(TopLevel(g), h => IsCandidate(g, rules, MainSet(g, rules), h));
  }

  /** The three loops, one window's share of each. */
  lemma LoopsInTurn(g: WindowGraph, settings: Settings, rules: Rules, states: States, id: WindowIdentity) returns (a1: Pass, a2: Pass)
    ensures a1 == ApplyMains(Pass(Store(states, {}, []), EMPTY_LOG), g, settings, rules, ConfirmedMains(g, rules))
    ensures a2 == ApplyCandidates(a1, g, rules, Candidates(g, rules, MainSet(g, rules)))
    ensures PopupCell(ApplyPopups(PopupPass(a2.store, a2.log, {}), g, rules, MainSet(g, rules), TopLevel(g)), id)
         == Outcome(g, settings, rules, states, id)
  {
    a1 := ApplyMains(Pass(Store(states, {}, []), EMPTY_LOG), g, settings, rules, ConfirmedMains(g, rules));
    a2 := ApplyCandidates(a1, g, rules, Candidates(g, rules, MainSet(g, rules)));
  }

  /** A child of a main window is neither top-level nor part of a popup. */
  lemma ChildIsApart(g: WindowGraph, rules: Rules, m: Hwnd, h: Hwnd)
    requires Forest(g) && m in ConfirmedMains(g, rules) && h in g.ChildrenOf(m) && h in g.nodes
    ensures h !in TopLevel(g) && forall host | host in TopLevel(g) :: !Touches(g, rules, MainSet(g, rules), host, h)
  {
    MainsAscend(g, rules);
    Verdicts.TopLevelIs(g);
    assert g.nodes[h].structuralParent == Some(m);
    assert h in Verdicts.ChildrenOfAll(g, ConfirmedMains(g, rules));
    forall host | host in TopLevel(g) ensures !Touches(g, rules, MainSet(g, rules), host, h) {
      if Touches(g, rules, MainSet(g, rules), host, h) {
        var hits := PopupMatches(g, rules, host);
        var i :| 0 <= i < |hits| && hits[i].0 == h;
        Verdicts.MatchIsNew(g, rules, ConfirmedMains(g, rules), host, hits[i]);
      }
    }
  }

  /** A window that is neither a looked-at child of a main window, nor top-level, nor a popup match keeps its
      streaks and is left alone; so does any identity without a window in the graph. */
  predicate NoRole(g: WindowGraph, rules: Rules, h: Hwnd) {
    && (forall m | m in ConfirmedMains(g, rules) :: !ChildOf(g, rules, m, h))
    && h !in TopLevel(g)
    && (forall host | host in TopLevel(g) :: !Touches(g, rules, MainSet(g, rules), host, h))
  }

  lemma {:induction false} MainsPass(a: Pass, g: WindowGraph, settings: Settings, rules: Rules, mains: seq<Hwnd>, x: WindowIdentity)
    requires Forest(g) && forall m | m in mains :: !(LooksAt(g, m) && x.hwnd in g.ChildrenOf(m) && IsTreeChild(g, m, x.hwnd))
    ensures var a' := ApplyMains(a, g, settings, rules, mains); CellOf(a'.store, a'.log, x) == CellOf(a.store, a.log, x)
    decreases mains
  {
    if mains != [] {
      if x.hwnd in g.ChildrenOf(mains[0]) {
        MainPasses(a, g, settings, rules, mains[0], x);
      } else {
        MainOther(a, g, settings, rules, mains[0], x);
      }
      MainsPass(ApplyMain(a, g, settings, rules, mains[0]), g, settings, rules, mains[1..], x);
    }
  }

  lemma OthersAreLeftAlone(g: WindowGraph, settings: Settings, rules: Rules, states: States, id: WindowIdentity)
    requires Forest(g) && NoRole(g, rules, id.hwnd)
    ensures var o := Outcome(g, settings, rules, states, id); o.state == StateIn(states, id) && Untried(o)
  {
    var a1, a2 := LoopsInTurn(g, settings, rules, states, id);
    MainsAscend(g, rules);
    CandidatesAscend(g, rules);
    MainsPass(Pass(Store(states, {}, []), EMPTY_LOG), g, settings, rules, ConfirmedMains(g, rules), id);
    CandidatesOther(a1, g, rules, Candidates(g, rules, MainSet(g, rules)), id);
    PopupsOther(PopupPass(a2.store, a2.log, {}), g, rules, MainSet(g, rules), TopLevel(g), id);
  }

  /** A child of a main window, in one evaluation. */
  lemma ChildrenAreJudged(g: WindowGraph, settings: Settings, rules: Rules, states: States, m: Hwnd, h: Hwnd)
    requires Forest(g) && ChildOf(g, rules, m, h)
    ensures var id := g.nodes[h].Identity();
            && JudgedAsChild(g, settings, rules, m, h, Blank(states, id), Outcome(g, settings, rules, states, id))
            && PlacedAsChild(g, rules, m, h, Outcome(g, settings, rules, states, id).places)
  {
    var id, a0 := g.nodes[h].Identity(), Pass(Store(states, {}, []), EMPTY_LOG);
    var a1, a2 := LoopsInTurn(g, settings, rules, states, id);
    MainsAscend(g, rules);
    CandidatesAscend(g, rules);
    ChildIsApart(g, rules, m, h);
    var before := MainsTurn(a0, g, settings, rules, ConfirmedMains(g, rules), m, id);
    assert CellOf(before.store, before.log, id) == Blank(states, id);
    ChildTurn(before, g, settings, rules, m, h);
    CandidatesOther(a1, g, rules, Candidates(g, rules, MainSet(g, rules)), id);
    PopupsOther(PopupPass(a2.store, a2.log, {}), g, rules, MainSet(g, rules), TopLevel(g), id);
  }

  // ---------------------------------------------------------------- top-level windows

  /** The guard of popup hosts: a host with a readable title without any listed text is spared if the rules
      ask for hosts without text. */
  predicate Spared(rules: Rules, host: WindowNode) {
    || host.title.Unknown?
    || (&& rules.popupHostRequireEmptyText
        && rules.trim(host.Text()) != ""
        && forall i | 0 <= i < |rules.popupHostTextContains| ::
             var t := rules.popupHostTextContains[i];
             t != "" ==> !Contains(rules.lower(rules.trim(host.Text())), rules.lower(t)))
  }

  lemma GuardMeans(rules: Rules, host: WindowNode)
    ensures Allowed(rules, host) <==> !Spared(rules, host)
    ensures PopupHostGuard(rules, host).Blocked? <==> Spared(rules, host)
  {
    var texts := rules.popupHostTextContains;
    assert forall t | t in texts :: exists i :: 0 <= i < |texts| && texts[i] == t;
  }

  /** An unowned top-level window other than a main window, with a popup advertisement below it. */
  predicate HostsPopup(g: WindowGraph, rules: Rules, h: Hwnd) {
    h in g.nodes && IsPopupHost(g, MainSet(g, rules), h) && PopupMatches(g, rules, h) != []
  }

  /** A top-level window, in one evaluation: its streaks count legacy titles if it is a candidate; it is
      retained if it is a popup host that the guard does not spare. */
  lemma TopLevelsAreJudged(g: WindowGraph, settings: Settings, rules: Rules, states: States, h: Hwnd)
    requires Forest(g) && h in TopLevel(g)
    ensures h in g.nodes
    ensures var id := g.nodes[h].Identity();
            var st, o := StateIn(states, id), Outcome(g, settings, rules, states, id);
            var candidate, kind := IsCandidate(g, rules, MainSet(g, rules), h), LegacySignatureKind(g, rules, h);
            var retained := HostsPopup(g, rules, h) && !Spared(rules, g.nodes[h]);
            && o.state == (if candidate && !kind.NoLegacy? then Some(Hit(st)) else if candidate && st.Some? then Some(Miss(st)) else st)
            && (o.hidden <==> retained || (candidate && (kind.Exact? || (kind.Substring? && Confirms(rules, Hit(st))))))
            && (o.closed <==> retained && g.nodes[h].visible)
            && o.places == if retained then [Pos(h, 0, 0, 0, 0)] else []
  {
    Verdicts.TopLevelIs(g);
    var a1, a2 := LoopsInTurn(g, settings, rules, states, g.nodes[h].Identity());
    TopLevelBeforePopups(g, settings, rules, states, h, a1, a2);
    CandidateMeansLaw(g, rules, h, Blank(states, g.nodes[h].Identity()));
    TopLevelInPopups(PopupPass(a2.store, a2.log, {}), g, rules, h);
  }

  /** Before the popup loop only its turn as a candidate has mattered. */
  lemma TopLevelBeforePopups(g: WindowGraph, settings: Settings, rules: Rules, states: States, h: Hwnd, a1: Pass, a2: Pass)
    requires Forest(g) && h in TopLevel(g) && h in g.nodes
    requires a1 == ApplyMains(Pass(Store(states, {}, []), EMPTY_LOG), g, settings, rules, ConfirmedMains(g, rules))
    requires a2 == ApplyCandidates(a1, g, rules, Candidates(g, rules, MainSet(g, rules)))
    ensures var id := g.nodes[h].Identity();
            CellOf(a2.store, a2.log, id) ==
              if IsCandidate(g, rules, MainSet(g, rules), h)
              then CandidateLaw(Blank(states, id), LegacyDecision(LegacySignatureKind(g, rules, h)), rules.weakSignalConfirmTicks)
              else Blank(states, id)
  {
    var id, a0 := g.nodes[h].Identity(), Pass(Store(states, {}, []), EMPTY_LOG);
    Verdicts.TopLevelIs(g);
    MainsAscend(g, rules);
    CandidatesAscend(g, rules);
    forall m | m in ConfirmedMains(g, rules) ensures h !in g.ChildrenOf(m) {
      NotAChild(g, m, h);
    }
    MainsOther(a0, g, settings, rules, ConfirmedMains(g, rules), id);
    assert CellOf(a1.store, a1.log, id) == Blank(states, id);
    var candidates := Candidates(g, rules, MainSet(g, rules));
    if h in candidates {
      CandidatesOwn(a1, g, rules, candidates, h);
    } else {
      CandidatesOther(a1, g, rules, candidates, id);
    }
  }

  lemma CandidateMeansLaw(g: WindowGraph, rules: Rules, h: Hwnd, c: Cell)
    requires Untried(c)
    ensures var kind := LegacySignatureKind(g, rules, h);
            var c' := CandidateLaw(c, LegacyDecision(kind), rules.weakSignalConfirmTicks);
            && c'.state == (if !kind.NoLegacy? then Some(Hit(c.state)) else if c.state.Some? then Some(Miss(c.state)) else c.state)
            && (c'.hidden <==> kind.Exact? || (kind.Substring? && Confirms(rules, Hit(c.state))))
            && !c'.closed && c'.places == []
  {
  }

  /** A top-level window in the popup loop, where only its own turn matters. */
  lemma TopLevelInPopups(a: PopupPass, g: WindowGraph, rules: Rules, h: Hwnd)
    requires Forest(g) && h in TopLevel(g) && h in g.nodes && g.nodes[h].structuralParent.None? && a.handled == {}
    ensures var id, a' := g.nodes[h].Identity(), ApplyPopups(a, g, rules, MainSet(g, rules), TopLevel(g));
            PopupCell(a', id) ==
              if HostsPopup(g, rules, h) && !Spared(rules, g.nodes[h]) then RetainLaw(PopupCell(a, id), h, g.nodes[h].visible) else PopupCell(a, id)
  {
    var id, mains := g.nodes[h].Identity(), MainSet(g, rules);
    MainsAscend(g, rules);
    GuardMeans(rules, g.nodes[h]);
    if IsPopupHost(g, mains, h) {
      var before := PopupsTurn(a, g, rules, mains, TopLevel(g), h, id);
      MatchesFitHost(g, rules, h);
      HostTurn(before, g, rules, g.nodes[h], PopupMatches(g, rules, h), id);
    } else {
      forall host | host in TopLevel(g) ensures !Touches(g, rules, mains, host, h) {
        MatchesFitHost(g, rules, host);
      }
      PopupsOther(a, g, rules, mains, TopLevel(g), id);
    }
  }

  // ---------------------------------------------------------------- popup advertisements

  /** `h` is a popup advertisement below the top-level window `host`. */
  predicate PopupBelow(g: WindowGraph, rules: Rules, host: Hwnd, h: Hwnd) {
    host in TopLevel(g) && IsPopupHost(g, MainSet(g, rules), host) && IsHit(PopupMatches(g, rules, host), h)
  }

  lemma MatchIsApart(g: WindowGraph, rules: Rules, host: Hwnd, h: Hwnd)
    requires Forest(g) && PopupBelow(g, rules, host, h)
    ensures h in g.nodes && h != host && h !in TopLevel(g)
    ensures forall m | m in ConfirmedMains(g, rules) :: h !in g.ChildrenOf(m)
  {
    MainsAscend(g, rules);
    Verdicts.TopLevelIs(g);
    MatchesFitHost(g, rules, host);
    var hits := PopupMatches(g, rules, host);
    var i :| 0 <= i < |hits| && hits[i].0 == h;
    Verdicts.MatchIsNew(g, rules, ConfirmedMains(g, rules), host, hits[i]);
    forall m | m in ConfirmedMains(g, rules) ensures h !in g.ChildrenOf(m) {
      NotInAll(g, ConfirmedMains(g, rules), m, h);
    }
  }

  lemma NotInAll(g: WindowGraph, mains: seq<Hwnd>, m: Hwnd, h: Hwnd)
    requires m in mains && h !in Verdicts.ChildrenOfAll(g, mains)
    ensures h !in g.ChildrenOf(m)
  {
  }

  /** A popup advertisement, in one evaluation: a match each time its host is not spared, and then it is
      hidden, left without area and, if visible, asked to close; a miss each time its host is spared. */
  lemma PopupsAreJudged(g: WindowGraph, settings: Settings, rules: Rules, states: States, host: Hwnd, h: Hwnd)
    requires Forest(g) && PopupBelow(g, rules, host, h)
    ensures h in g.nodes
    ensures var id := g.nodes[h].Identity();
            var st, o, spared := StateIn(states, id), Outcome(g, settings, rules, states, id), Spared(rules, g.nodes[host]);
            && o.state == Some(if spared then Miss(st) else Hit(st))
            && (o.hidden <==> !spared)
            && (o.closed <==> !spared && g.nodes[h].visible)
            && o.places == if spared then [] else [Pos(h, 0, 0, 0, 0)]
  {
    MatchIsApart(g, rules, host, h);
    MainsAscend(g, rules);
    CandidatesAscend(g, rules);
    var id, a0, mains := g.nodes[h].Identity(), Pass(Store(states, {}, []), EMPTY_LOG), MainSet(g, rules);
    var a1, a2 := LoopsInTurn(g, settings, rules, states, id);
    MainsOther(a0, g, settings, rules, ConfirmedMains(g, rules), id);
    CandidatesOther(a1, g, rules, Candidates(g, rules, mains), id);
    var before := PopupsTurn(PopupPass(a2.store, a2.log, {}), g, rules, mains, TopLevel(g), host, id);
    MatchesFitHost(g, rules, host);
    HitTurn(before, g, rules, g.nodes[host], PopupMatches(g, rules, host), h);
    GuardMeans(rules, g.nodes[host]);
  }

  // ---------------------------------------------------------------- the placements of the plan

  predicate WantsView(g: WindowGraph, rules: Rules, p: Pos) {
    exists m :: m in ConfirmedMains(g, rules) && ChildOf(g, rules, m, p.hwnd) && WantsSize(g, rules, m, p.hwnd, p.width, p.height)
  }

  /** A popup host that is not spared, or an advertisement below one. */
  predicate Retained(g: WindowGraph, rules: Rules, h: Hwnd) {
    || (h in TopLevel(g) && HostsPopup(g, rules, h) && !Spared(rules, g.nodes[h]))
    || exists host :: host in TopLevel(g) && PopupBelow(g, rules, host, h) && host in g.nodes && !Spared(rules, g.nodes[host])
  }

  /** Exactly the views that want another size are resized, each to the size it wants and in place; exactly
      the retained popup windows lose their area. */
  lemma PlacementsExactly(g: WindowGraph, settings: Settings, rules: Rules, states: States, p: Pos)
    requires Forest(g)
    ensures var plan := PlanOf(Apply(g, settings, rules, states).log);
            p in plan.setPos <==>
              if p.ViewResize() then p.x == 0 && p.y == 0 && WantsView(g, rules, p) else p == Pos(p.hwnd, 0, 0, 0, 0) && Retained(g, rules, p.hwnd)
  {
    var h, a := p.hwnd, Apply(g, settings, rules, states);
    var id := if h in g.nodes then g.nodes[h].Identity() else WindowIdentity(h, 0, "");
    PlacesAreOwn(a.log.setPos, h);
    assert p in a.log.setPos <==> p in Outcome(g, settings, rules, states, id).places;
    if m :| m in ConfirmedMains(g, rules) && ChildOf(g, rules, m, h) {
      ChildPlacement(g, settings, rules, states, m, p);
    } else if h in TopLevel(g) {
      TopLevelsAreJudged(g, settings, rules, states, h);
      TopLevelIsNoMatch(g, rules, h);
    } else if host :| host in TopLevel(g) && PopupBelow(g, rules, host, h) {
      PopupPlacement(g, settings, rules, states, host, p);
    } else {
      forall host | host in TopLevel(g) ensures !Touches(g, rules, MainSet(g, rules), host, h) {
        assert !PopupBelow(g, rules, host, h);
      }
      OthersAreLeftAlone(g, settings, rules, states, id);
    }
  }

  lemma TopLevelIsNoMatch(g: WindowGraph, rules: Rules, h: Hwnd)
    requires Forest(g) && h in TopLevel(g)
    ensures forall host :: !PopupBelow(g, rules, host, h)
    ensures forall m :: !ChildOf(g, rules, m, h)
  {
    Verdicts.TopLevelIs(g);
    MainsAscend(g, rules);
    forall host ensures !PopupBelow(g, rules, host, h) {
      if PopupBelow(g, rules, host, h) {
        MatchIsApart(g, rules, host, h);
      }
    }
    forall m ensures !ChildOf(g, rules, m, h) {
      NotAChild(g, m, h);
    }
  }

  lemma ChildPlacement(g: WindowGraph, settings: Settings, rules: Rules, states: States, m: Hwnd, p: Pos)
    requires Forest(g) && ChildOf(g, rules, m, p.hwnd)
    ensures p in Outcome(g, settings, rules, states, g.nodes[p.hwnd].Identity()).places <==>
              p.ViewResize() && p.x == 0 && p.y == 0 && WantsView(g, rules, p)
    ensures !Retained(g, rules, p.hwnd)
  {
    var places := Outcome(g, settings, rules, states, g.nodes[p.hwnd].Identity()).places;
    ChildrenAreJudged(g, settings, rules, states, m, p.hwnd);
    ChildIsApart(g, rules, m, p.hwnd);
    forall host | host in TopLevel(g) ensures !PopupBelow(g, rules, host, p.hwnd) {
      assert !Touches(g, rules, MainSet(g, rules), host, p.hwnd);
    }
    if p in places {
      assert places == [p] && p == Pos(p.hwnd, 0, 0, p.width, p.height);
      assert WantsSize(g, rules, m, p.hwnd, p.width, p.height);
    }
    if WantsView(g, rules, p) {
      var n :| n in ConfirmedMains(g, rules) && ChildOf(g, rules, n, p.hwnd) && WantsSize(g, rules, n, p.hwnd, p.width, p.height);
      OneParent(g, m, n, p.hwnd);
    }
  }

  lemma OnlyHost(g: WindowGraph, rules: Rules, host: Hwnd, other: Hwnd, h: Hwnd)
    requires Forest(g) && PopupBelow(g, rules, host, h) && PopupBelow(g, rules, other, h)
    ensures other == host
  {
    Verdicts.TopLevelIs(g);
    TouchedOnce(g, rules, MainSet(g, rules), host, other, h);
  }

  lemma RetainedBelow(g: WindowGraph, rules: Rules, host: Hwnd, h: Hwnd)
    requires Forest(g) && PopupBelow(g, rules, host, h) && h !in TopLevel(g)
    ensures host in g.nodes
    ensures Retained(g, rules, h) <==> !Spared(rules, g.nodes[host])
  {
    if Retained(g, rules, h) {
      var other :| other in TopLevel(g) && PopupBelow(g, rules, other, h) && other in g.nodes && !Spared(rules, g.nodes[other]);
      OnlyHost(g, rules, host, other, h);
    }
  }

  lemma PopupPlacement(g: WindowGraph, settings: Settings, rules: Rules, states: States, host: Hwnd, p: Pos)
    requires Forest(g) && PopupBelow(g, rules, host, p.hwnd)
    ensures p.hwnd in g.nodes && !WantsView(g, rules, p)
    ensures p in Outcome(g, settings, rules, states, g.nodes[p.hwnd].Identity()).places <==>
              p == Pos(p.hwnd, 0, 0, 0, 0) && Retained(g, rules, p.hwnd)
  {
    PopupsAreJudged(g, settings, rules, states, host, p.hwnd);
    MatchIsApart(g, rules, host, p.hwnd);
    RetainedBelow(g, rules, host, p.hwnd);
  }

  /** The plan lists a window exactly if the evaluation decided so. */
  lemma PlanIsOutcome(g: WindowGraph, settings: Settings, rules: Rules, states: States, id: WindowIdentity)
    ensures var plan, o := PlanOf(Apply(g, settings, rules, states).log), Outcome(g, settings, rules, states, id);
            && (id.hwnd in plan.hide <==> o.hidden)
            && (id.hwnd in plan.close <==> o.closed)
  {
    var log := Apply(g, settings, rules, states).log;
    SortedSeqSorts(Members(log.hides));
    SortedSeqSorts(Members(log.closes));
  }
}

/** The apply pass seen from one window: each loop changes what concerns the windows it looks at, once, and
    leaves everything else alone. */
module Cells {
  import opened Model
  import opened Arithmetic
  import opened Ordering
  import opened Search
  import opened Signals
  import opened Evaluate
  import opened Verdicts

  /** All that an evaluation has recorded about one window. */
  datatype Cell = Cell(state: Option<CandidateState>, touched: bool, hidden: bool, closed: bool, places: seq<Pos>)

  function StateIn(states: States, id: WindowIdentity): Option<CandidateState> {
    if id in states then Some(states[id]) else None
  }

  /** The placements of one window, in order. */
  function PlacesOf(setPos: seq<Pos>, h: Hwnd): seq<Pos> {
    if setPos == [] then []
    else
      var last := setPos[|setPos| - 1];
      PlacesOf(setPos[..|setPos| - 1], h) + if last.hwnd == h then [last] else []
  }

  lemma OnePlaceMore(setPos: seq<Pos>, p: Pos, h: Hwnd)
    ensures PlacesOf(setPos + [p], h) == PlacesOf(setPos, h) + if p.hwnd == h then [p] else []
  {
    var all := setPos + [p];
    assert all[..|all| - 1] == setPos;
  }

  lemma {:induction false} PlacesAreOwn(setPos: seq<Pos>, h: Hwnd)
    ensures forall p :: p in PlacesOf(setPos, h) <==> p in setPos && p.hwnd == h
  {
    if setPos != [] {
      PlacesAreOwn(setPos[..|setPos| - 1], h);
      assert setPos == setPos[..|setPos| - 1] + [setPos[|setPos| - 1]];
    }
  }

  function CellOf(store: Store, log: Log, id: WindowIdentity): Cell {
    Cell(StateIn(store.states, id), id in store.touched, id.hwnd in log.hides, id.hwnd in log.closes, PlacesOf(log.setPos, id.hwnd))
  }

  // ---------------------------------------------------------------- one verdict

  /** A match lengthens the streak by one, a miss ends it. */
  function Counted(state: Option<CandidateState>, matched: bool): CandidateState {
    var was := if state.Some? then state.value else CandidateState(0, 0);
    if matched then CandidateState(was.matchStreak + 1, 0) else CandidateState(0, was.missStreak + 1)
  }

  predicate LongEnough(state: Option<CandidateState>, strength: Strength, ticks: int) {
    strength.Strong? || (state.Some? && state.value.matchStreak >= Max(ticks, 1))
  }

  /** A verdict that is a match, or the first miss of a tracked window in this tick. */
  function Judged(c: Cell, d: AdDecision, track: bool): Cell {
    if d.Matched() || (track && !c.touched) then c.(state := Some(Counted(c.state, d.Matched())), touched := true) else c
  }

  lemma OnceCell(s: Store, log: Log, id: WindowIdentity, d: AdDecision, ticks: int, track: bool)
    ensures var r := StoreOnce(s, id, d, ticks, track);
            var s', c' := if r.Some? then r.value.store else s, Judged(CellOf(s, log, id), d, track);
            && CellOf(s', log, id) == c'
            && ((r.Some? && r.value.confirmed) == (d.Matched() && LongEnough(c'.state, d.strength, ticks)))
  {
  }

  // ---------------------------------------------------------------- one child of a main window

  function CloseLaw(c: Cell, close: Option<AdDecision>, ticks: int): Cell {
    if close.None? then c
    else
      var c' := Judged(c, close.value, c.state.Some? || close.value.signals.HasRelevantSignal());
      c'.(closed := c.closed || (close.value.Matched() && LongEnough(c'.state, close.value.strength, ticks)))
  }

  function ResizeLaw(c: Cell, h: Hwnd, size: Option<(int, int)>): Cell {
    match size
    case None => c
    case Some((width, height)) => c.(places := c.places + [Pos(h, 0, 0, width, height)])
  }

  function BannerLaw(c: Cell, banner: Option<AdDecision>, ticks: int): Cell {
    if banner.None? then c
    else
      var c' := Judged(c, banner.value, c.state.Some?);
      c'.(hidden := c.hidden || (banner.value.Matched() && banner.value.action.Hide? && LongEnough(c'.state, banner.value.strength, ticks)))
  }

  function ChildLaw(c: Cell, h: Hwnd, close: Option<AdDecision>, size: Option<(int, int)>, banner: Option<AdDecision>, ticks: int): Cell {
    BannerLaw(ResizeLaw(CloseLaw(c, close, ticks), h, size), banner, ticks)
  }

  /** What the pass asks about one child. */
  function ChildCell(c: Cell, g: WindowGraph, settings: Settings, rules: Rules, ctx: ChildContext, parentText: string, parentRect: Rect, adSignal: bool): Cell {
    ChildLaw(c, ctx.child, CloseVerdict(g, rules, ctx, parentText, adSignal), PlannedViewResize(rules, ctx.text, parentRect, ctx.currentRect),
             if settings.aggressiveMode && ctx.childRect.Some? then Some(ctx.aggressive) else None, rules.weakSignalConfirmTicks)
  }

  lemma CloseOwn(a: Pass, g: WindowGraph, rules: Rules, ctx: ChildContext, parentText: string, adSignal: bool)
    requires ctx.identity.hwnd == ctx.child
    ensures var a' := ApplyClose(a, g, rules, ctx, parentText, adSignal);
            CellOf(a'.store, a'.log, ctx.identity)
              == CloseLaw(CellOf(a.store, a.log, ctx.identity), CloseVerdict(g, rules, ctx, parentText, adSignal), rules.weakSignalConfirmTicks)
  {
    var close := CloseVerdict(g, rules, ctx, parentText, adSignal);
    if close.Some? {
      var d, known := close.value, ctx.identity in a.store.states || close.value.signals.HasRelevantSignal();
      OnceCell(a.store, a.log, ctx.identity, d, rules.weakSignalConfirmTicks, !d.Matched() && known);
    }
  }

  lemma BannerOwn(a: Pass, settings: Settings, rules: Rules, ctx: ChildContext)
    requires ctx.identity.hwnd == ctx.child
    ensures var a' := ApplyAggressive(a, settings, rules, ctx);
            CellOf(a'.store, a'.log, ctx.identity)
              == BannerLaw(CellOf(a.store, a.log, ctx.identity),
                           if settings.aggressiveMode && ctx.childRect.Some? then Some(ctx.aggressive) else None, rules.weakSignalConfirmTicks)
  {
    OnceCell(a.store, a.log, ctx.identity, ctx.aggressive, rules.weakSignalConfirmTicks, !ctx.aggressive.Matched() && ctx.identity in a.store.states);
  }

  lemma ChildOwn(a: Pass, g: WindowGraph, settings: Settings, rules: Rules, ctx: ChildContext, parentText: string, parentRect: Rect, adSignal: bool)
    requires ctx.identity.hwnd == ctx.child
    ensures var a' := ApplyChild(a, g, settings, rules, ctx, parentText, parentRect, adSignal);
            CellOf(a'.store, a'.log, ctx.identity)
              == ChildCell(CellOf(a.store, a.log, ctx.identity), g, settings, rules, ctx, parentText, parentRect, adSignal)
  {
    CloseOwn(a, g, rules, ctx, parentText, adSignal);
    var a1 := ApplyClose(a, g, rules, ctx, parentText, adSignal);
    var size := PlannedViewResize(rules, ctx.text, parentRect, ctx.currentRect);
    if size.Some? {
      OnePlaceMore(a1.log.setPos, Pos(ctx.child, 0, 0, size.value.0, size.value.1), ctx.child);
    }
    BannerOwn(ApplyResize(a1, rules, ctx, parentRect), settings, rules, ctx);
  }

  lemma OnceOther(s: Store, log: Log, id: WindowIdentity, d: AdDecision, ticks: int, track: bool, x: WindowIdentity)
    requires x != id
    ensures var r := StoreOnce(s, id, d, ticks, track); r.Some? ==> CellOf(r.value.store, log, x) == CellOf(s, log, x)
  {
  }

  lemma CloseOther(a: Pass, g: WindowGraph, rules: Rules, ctx: ChildContext, parentText: string, adSignal: bool, x: WindowIdentity)
    requires ctx.identity.hwnd == ctx.child && ctx.child != x.hwnd
    ensures var a' := ApplyClose(a, g, rules, ctx, parentText, adSignal); CellOf(a'.store, a'.log, x) == CellOf(a.store, a.log, x)
  {
    var close := CloseVerdict(g, rules, ctx, parentText, adSignal);
    if close.Some? {
      var d, known := close.value, ctx.identity in a.store.states || close.value.signals.HasRelevantSignal();
      OnceOther(a.store, a.log, ctx.identity, d, rules.weakSignalConfirmTicks, !d.Matched() && known, x);
    }
  }

  lemma BannerOther(a: Pass, settings: Settings, rules: Rules, ctx: ChildContext, x: WindowIdentity)
    requires ctx.identity.hwnd == ctx.child && ctx.child != x.hwnd
    ensures var a' := ApplyAggressive(a, settings, rules, ctx); CellOf(a'.store, a'.log, x) == CellOf(a.store, a.log, x)
  {
    OnceOther(a.store, a.log, ctx.identity, ctx.aggressive, rules.weakSignalConfirmTicks, !ctx.aggressive.Matched() && ctx.identity in a.store.states, x);
  }

  lemma ChildOther(a: Pass, g: WindowGraph, settings: Settings, rules: Rules, ctx: ChildContext, parentText: string, parentRect: Rect, adSignal: bool,
                   x: WindowIdentity)
    requires ctx.identity.hwnd == ctx.child && ctx.child != x.hwnd
    ensures var a' := ApplyChild(a, g, settings, rules, ctx, parentText, parentRect, adSignal);
            CellOf(a'.store, a'.log, x) == CellOf(a.store, a.log, x)
  {
    CloseOther(a, g, rules, ctx, parentText, adSignal, x);
    var a1 := ApplyClose(a, g, rules, ctx, parentText, adSignal);
    var size := PlannedViewResize(rules, ctx.text, parentRect, ctx.currentRect);
    if size.Some? {
      OnePlaceMore(a1.log.setPos, Pos(ctx.child, 0, 0, size.value.0, size.value.1), x.hwnd);
    }
    BannerOther(ApplyResize(a1, rules, ctx, parentRect), settings, rules, ctx, x);
  }

  lemma {:induction false} ChildrenOther(a: Pass, g: WindowGraph, settings: Settings, rules: Rules, ctxs: seq<ChildContext>, parentText: string,
                                         parentRect: Rect, adSignal: bool, x: WindowIdentity)
    requires forall c | c in ctxs :: c.identity.hwnd == c.child && c.child != x.hwnd
    ensures var a' := ApplyChildren(a, g, settings, rules, ctxs, parentText, parentRect, adSignal);
            CellOf(a'.store, a'.log, x) == CellOf(a.store, a.log, x)
    decreases ctxs
  {
    if ctxs != [] {
      ChildOther(a, g, settings, rules, ctxs[0], parentText, parentRect, adSignal, x);
      ChildrenOther(ApplyChild(a, g, settings, rules, ctxs[0], parentText, parentRect, adSignal), g, settings, rules, ctxs[1..],
                    parentText, parentRect, adSignal, x);
    }
  }

  lemma {:induction false} ChildrenOwn(a: Pass, g: WindowGraph, settings: Settings, rules: Rules, ctxs: seq<ChildContext>, parentText: string,
                                       parentRect: Rect, adSignal: bool, i: nat)
    requires DistinctContexts(ctxs) && i < |ctxs| && forall c | c in ctxs :: c.identity.hwnd == c.child
    ensures var a' := ApplyChildren(a, g, settings, rules, ctxs, parentText, parentRect, adSignal);
            CellOf(a'.store, a'.log, ctxs[i].identity)
              == ChildCell(CellOf(a.store, a.log, ctxs[i].identity), g, settings, rules, ctxs[i], parentText, parentRect, adSignal)
    decreases ctxs
  {
    var c, rest := ctxs[0], ctxs[1..];
    var a1 := ApplyChild(a, g, settings, rules, c, parentText, parentRect, adSignal);
    assert c in ctxs && ctxs[i] in ctxs;
    if i == 0 {
      ChildOwn(a, g, settings, rules, c, parentText, parentRect, adSignal);
      ChildrenOther(a1, g, settings, rules, rest, parentText, parentRect, adSignal, c.identity);
    } else {
      ChildOther(a, g, settings, rules, c, parentText, parentRect, adSignal, ctxs[i].identity);
      assert rest[i - 1] == ctxs[i];
      ChildrenOwn(a1, g, settings, rules, rest, parentText, parentRect, adSignal, i - 1);
    }
  }

  // ---------------------------------------------------------------- the main windows

  /** The main window is looked at. */
  predicate LooksAt(g: WindowGraph, m: Hwnd) { m in g.nodes && g.nodes[m].pid in g.pids && g.nodes[m].rect.Some? }

  lemma ContextsFit(g: WindowGraph, settings: Settings, rules: Rules, mains: set<Hwnd>, m: Hwnd)
    requires Forest(g) && m in mains && LooksAt(g, m)
    ensures var ctxs := Contexts(g, settings, rules, m, g.ChildrenOf(m), g.nodes[m].rect.value);
            && DistinctContexts(ctxs)
            && forall c | c in ctxs :: c.identity.hwnd == c.child && c.child in g.ChildrenOf(m)
  {
    var ctxs := Contexts(g, settings, rules, m, g.ChildrenOf(m), g.nodes[m].rect.value);
    ContextsOk(g, settings, rules, mains, m, g.ChildrenOf(m), g.nodes[m].rect.value);
    forall c | c in ctxs ensures c.child in g.ChildrenOf(m) {
      assert c.child in ContextHandles(ctxs);
    }
  }

  lemma MainOther(a: Pass, g: WindowGraph, settings: Settings, rules: Rules, m: Hwnd, x: WindowIdentity)
    requires Forest(g) && x.hwnd !in g.ChildrenOf(m)
    ensures var a' := ApplyMain(a, g, settings, rules, m); CellOf(a'.store, a'.log, x) == CellOf(a.store, a.log, x)
  {
    if LooksAt(g, m) {
      ContextsFit(g, settings, rules, {m}, m);
      var rect := g.nodes[m].rect.value;
      var ctxs := Contexts(g, settings, rules, m, g.ChildrenOf(m), rect);
      ChildrenOther(a, g, settings, rules, ctxs, g.nodes[m].Text(), rect, AnyAdSignal(ctxs), x);
    }
  }

  lemma {:induction false} MainsOther(a: Pass, g: WindowGraph, settings: Settings, rules: Rules, mains: seq<Hwnd>, x: WindowIdentity)
    requires Forest(g) && forall m | m in mains :: x.hwnd !in g.ChildrenOf(m)
    ensures var a' := ApplyMains(a, g, settings, rules, mains); CellOf(a'.store, a'.log, x) == CellOf(a.store, a.log, x)
    decreases mains
  {
    if mains != [] {
      MainOther(a, g, settings, rules, mains[0], x);
      MainsOther(ApplyMain(a, g, settings, rules, mains[0]), g, settings, rules, mains[1..], x);
    }
  }

  /** For a child of `m` only the turn of `m` matters. */
  lemma {:induction false} MainsTurn(a: Pass, g: WindowGraph, settings: Settings, rules: Rules, mains: seq<Hwnd>, m: Hwnd, x: WindowIdentity)
    returns (before: Pass)
    requires Forest(g) && Ascending(mains) && m in mains && x.hwnd in g.ChildrenOf(m)
    ensures CellOf(before.store, before.log, x) == CellOf(a.store, a.log, x)
    ensures var a', turn := ApplyMains(a, g, settings, rules, mains), ApplyMain(before, g, settings, rules, m);
            CellOf(a'.store, a'.log, x) == CellOf(turn.store, turn.log, x)
    decreases mains
  {
    var first, rest := mains[0], mains[1..];
    var a1 := ApplyMain(a, g, settings, rules, first);
    if first == m {
      before := a;
      forall other | other in rest ensures x.hwnd !in g.ChildrenOf(other) {
        if x.hwnd in g.ChildrenOf(other) {
          OneParent(g, m, other, x.hwnd);
        }
      }
      MainsOther(a1, g, settings, rules, rest, x);
    } else {
      if x.hwnd in g.ChildrenOf(first) {
        OneParent(g, m, first, x.hwnd);
      }
      MainOther(a, g, settings, rules, first, x);
      before := MainsTurn(a1, g, settings, rules, rest, m, x);
    }
  }

  /** A tree child of a main window that is looked at. */
  lemma MainOwn(a: Pass, g: WindowGraph, settings: Settings, rules: Rules, m: Hwnd, h: Hwnd)
    requires Forest(g) && LooksAt(g, m) && h in g.ChildrenOf(m) && IsTreeChild(g, m, h)
    ensures var rect := g.nodes[m].rect.value;
            var ctx, signal := ContextOf(g, settings, rules, h, rect), AnyAdSignal(Contexts(g, settings, rules, m, g.ChildrenOf(m), rect));
            var a' := ApplyMain(a, g, settings, rules, m);
            CellOf(a'.store, a'.log, g.nodes[h].Identity())
              == ChildCell(CellOf(a.store, a.log, g.nodes[h].Identity()), g, settings, rules, ctx, g.nodes[m].Text(), rect, signal)
  {
    var rect := g.nodes[m].rect.value;
    var ctxs := Contexts(g, settings, rules, m, g.ChildrenOf(m), rect);
    ContextsFit(g, settings, rules, {m}, m);
    var i := ContextListed(g, settings, rules, m, g.ChildrenOf(m), rect, h);
    ChildrenOwn(a, g, settings, rules, ctxs, g.nodes[m].Text(), rect, AnyAdSignal(ctxs), i);
  }

  lemma {:induction false} ContextListed(g: WindowGraph, settings: Settings, rules: Rules, m: Hwnd, children: seq<Hwnd>, rect: Rect, h: Hwnd)
    returns (i: nat)
    requires h in children && IsTreeChild(g, m, h)
    ensures var ctxs := Contexts(g, settings, rules, m, children, rect); i < |ctxs| && ctxs[i] == ContextOf(g, settings, rules, h, rect)
  {
    if children[0] == h {
      i := 0;
    } else {
      i := ContextListed(g, settings, rules, m, children[1..], rect, h);
      if IsTreeChild(g, m, children[0]) {
        i := i + 1;
      }
    }
  }

  /** A window in a main window's child list that is not its child, or below one that is not looked at. */
  lemma MainPasses(a: Pass, g: WindowGraph, settings: Settings, rules: Rules, m: Hwnd, x: WindowIdentity)
    requires Forest(g) && (LooksAt(g, m) ==> !IsTreeChild(g, m, x.hwnd))
    ensures var a' := ApplyMain(a, g, settings, rules, m); CellOf(a'.store, a'.log, x) == CellOf(a.store, a.log, x)
  {
    if LooksAt(g, m) {
      var rect := g.nodes[m].rect.value;
      var ctxs := Contexts(g, settings, rules, m, g.ChildrenOf(m), rect);
      ContextsFit(g, settings, rules, {m}, m);
      ContextsAreChildren(g, settings, rules, m, g.ChildrenOf(m), rect);
      ChildrenOther(a, g, settings, rules, ctxs, g.nodes[m].Text(), rect, AnyAdSignal(ctxs), x);
    }
  }

  lemma {:induction false} ContextsAreChildren(g: WindowGraph, settings: Settings, rules: Rules, m: Hwnd, children: seq<Hwnd>, rect: Rect)
    ensures forall c | c in Contexts(g, settings, rules, m, children, rect) :: IsTreeChild(g, m, c.child)
  {
    if children != [] {
      ContextsAreChildren(g, settings, rules, m, children[1..], rect);
    }
  }

  // ---------------------------------------------------------------- legacy candidates

  function CandidateLaw(c: Cell, d: AdDecision, ticks: int): Cell {
    var c' := Judged(c, d, c.state.Some?);
    c'.(hidden := c.hidden || (d.Matched() && d.action.Hide? && LongEnough(c'.state, d.strength, ticks)))
  }

  lemma CandidateOwn(a: Pass, g: WindowGraph, rules: Rules, h: Hwnd)
    requires g.WellKeyed() && h in g.nodes && g.nodes[h].pid in g.pids
    ensures var id, a' := g.nodes[h].Identity(), ApplyCandidate(a, g, rules, h);
            CellOf(a'.store, a'.log, id)
              == CandidateLaw(CellOf(a.store, a.log, id), LegacyDecision(LegacySignatureKind(g, rules, h)), rules.weakSignalConfirmTicks)
  {
    var id, d := g.nodes[h].Identity(), LegacyDecision(LegacySignatureKind(g, rules, h));
    OnceCell(a.store, a.log, id, d, rules.weakSignalConfirmTicks, !d.Matched() && id in a.store.states);
  }

  lemma {:induction false} CandidatesOther(a: Pass, g: WindowGraph, rules: Rules, candidates: seq<Hwnd>, x: WindowIdentity)
    requires g.WellKeyed() && x.hwnd !in candidates
    ensures var a' := ApplyCandidates(a, g, rules, candidates); CellOf(a'.store, a'.log, x) == CellOf(a.store, a.log, x)
    decreases candidates
  {
    if candidates != [] {
      CandidatesOther(ApplyCandidate(a, g, rules, candidates[0]), g, rules, candidates[1..], x);
    }
  }

  lemma {:induction false} CandidatesOwn(a: Pass, g: WindowGraph, rules: Rules, candidates: seq<Hwnd>, h: Hwnd)
    requires g.WellKeyed() && Ascending(candidates) && h in candidates && h in g.nodes && g.nodes[h].pid in g.pids
    ensures var id, a' := g.nodes[h].Identity(), ApplyCandidates(a, g, rules, candidates);
            CellOf(a'.store, a'.log, id)
              == CandidateLaw(CellOf(a.store, a.log, id), LegacyDecision(LegacySignatureKind(g, rules, h)), rules.weakSignalConfirmTicks)
    decreases candidates
  {
    var a1 := ApplyCandidate(a, g, rules, candidates[0]);
    if candidates[0] == h {
      CandidateOwn(a, g, rules, h);
      CandidatesOther(a1, g, rules, candidates[1..], g.nodes[h].Identity());
    } else {
      CandidateApart(a, g, rules, candidates[0], g.nodes[h].Identity());
      CandidatesOwn(a1, g, rules, candidates[1..], h);
    }
  }

  lemma CandidateApart(a: Pass, g: WindowGraph, rules: Rules, h: Hwnd, x: WindowIdentity)
    requires g.WellKeyed() && x.hwnd != h
    ensures var a' := ApplyCandidate(a, g, rules, h); CellOf(a'.store, a'.log, x) == CellOf(a.store, a.log, x)
  {
  }

  // ---------------------------------------------------------------- popups

  /** A popup match is judged anew in every tick. */
  function MatchLaw(c: Cell, allowed: bool): Cell { c.(state := Some(Counted(c.state, allowed))) }

  /** A retained window is hidden and loses its area; a visible one is asked to close as well. */
  function RetainLaw(c: Cell, h: Hwnd, visible: bool): Cell {
    c.(hidden := true, closed := c.closed || visible, places := c.places + [Pos(h, 0, 0, 0, 0)])
  }

  function PopupCell(a: PopupPass, x: WindowIdentity): Cell { CellOf(a.store, a.log, x) }

  lemma RetainCell(a: PopupPass, h: Hwnd, visible: bool, x: WindowIdentity)
    ensures var a' := RetainOnce(a, h, visible);
            && PopupCell(a', x) == (if x.hwnd == h && h !in a.handled then RetainLaw(PopupCell(a, x), h, visible) else PopupCell(a, x))
            && a'.handled == a.handled + {h}
  {
    OnePlaceMore(a.log.setPos, Pos(h, 0, 0, 0, 0), x.hwnd);
  }

  lemma RetainTwice(a: PopupPass, h: Hwnd, visible: bool, k: Hwnd, shown: bool, x: WindowIdentity)
    requires h != k
    ensures var a' := RetainOnce(RetainOnce(a, h, visible), k, shown);
            && PopupCell(a', x) ==
                 (if x.hwnd == h && h !in a.handled then RetainLaw(PopupCell(a, x), h, visible)
                  else if x.hwnd == k && k !in a.handled then RetainLaw(PopupCell(a, x), k, shown)
                  else PopupCell(a, x))
            && a'.handled == a.handled + {h, k}
  {
    RetainCell(a, h, visible, x);
    RetainCell(RetainOnce(a, h, visible), k, shown, x);
  }

  lemma RecordCell(a: PopupPass, id: WindowIdentity, d: AdDecision, ticks: int, x: WindowIdentity)
    ensures var a' := a.(store := StoreUpdate(a.store, id, d, ticks).store);
            PopupCell(a', x) == if x == id then MatchLaw(PopupCell(a, x), d.Matched()) else PopupCell(a, x)
  {
  }

  predicate Allowed(rules: Rules, host: WindowNode) { PopupHostGuard(rules, host).Allow? }

  /** One match seen from any window. */
  lemma MatchCell(a: PopupPass, g: WindowGraph, rules: Rules, host: WindowNode, hit: Hit, x: WindowIdentity)
    requires g.WellKeyed() && hit.0 in g.nodes && hit.0 != host.hwnd
    ensures var a', allowed := ApplyMatch(a, g, rules, host, hit), Allowed(rules, host);
            var c := if x == g.nodes[hit.0].Identity() then MatchLaw(PopupCell(a, x), allowed) else PopupCell(a, x);
            && PopupCell(a', x) ==
                 (if allowed && x.hwnd == host.hwnd && x.hwnd !in a.handled then RetainLaw(c, x.hwnd, host.visible)
                  else if allowed && x.hwnd == hit.0 && x.hwnd !in a.handled then RetainLaw(c, x.hwnd, g.nodes[hit.0].visible)
                  else c)
            && a'.handled == if allowed then a.handled + {host.hwnd, hit.0} else a.handled
  {
    var guard := PopupHostGuard(rules, host);
    var d := PopupDecision(guard, hit.1);
    RecordCell(a, g.nodes[hit.0].Identity(), d, rules.weakSignalConfirmTicks, x);
    var a1 := a.(store := StoreUpdate(a.store, g.nodes[hit.0].Identity(), d, rules.weakSignalConfirmTicks).store);
    assert d.Matched() == guard.Allow?;
    RetainTwice(a1, host.hwnd, host.visible, hit.0, g.nodes[hit.0].visible, x);
    assert ApplyMatch(a, g, rules, host, hit)
        == if guard.Allow? then RetainOnce(RetainOnce(a1, host.hwnd, host.visible), hit.0, g.nodes[hit.0].visible) else a1;
  }

  predicate HitsFit(g: WindowGraph, host: WindowNode, hits: seq<Hit>) {
    Once(hits) && forall i | 0 <= i < |hits| :: hits[i].0 in g.nodes && hits[i].0 != host.hwnd
  }

  predicate IsHit(hits: seq<Hit>, h: Hwnd) { exists i :: 0 <= i < |hits| && hits[i].0 == h }

  lemma {:induction false} MatchesHandle(a: PopupPass, g: WindowGraph, rules: Rules, host: WindowNode, hits: seq<Hit>)
    requires g.WellKeyed() && HitsFit(g, host, hits)
    ensures var a', allowed := ApplyMatches(a, g, rules, host, hits), Allowed(rules, host);
            a'.handled == if allowed && hits != [] then a.handled + {host.hwnd} + HitHandles(hits) else a.handled
    decreases hits
  {
    if hits != [] {
      var hit, rest := hits[0], hits[1..];
      MatchCell(a, g, rules, host, hit, g.nodes[hit.0].Identity());
      MatchesHandle(ApplyMatch(a, g, rules, host, hit), g, rules, host, rest);
      assert HitHandles(hits) == {hit.0} + HitHandles(rest) by {
        assert hits == [hit] + rest;
      }
    }
  }

  /** Matches that are neither this window nor found by it. */
  lemma {:induction false} HitsElsewhere(a: PopupPass, g: WindowGraph, rules: Rules, host: WindowNode, hits: seq<Hit>, x: WindowIdentity)
    requires g.WellKeyed() && HitsFit(g, host, hits) && x.hwnd != host.hwnd && !IsHit(hits, x.hwnd)
    ensures PopupCell(ApplyMatches(a, g, rules, host, hits), x) == PopupCell(a, x)
    decreases hits
  {
    if hits != [] {
      assert hits[0].0 != x.hwnd;
      assert forall i | 0 <= i < |hits[1..]| :: hits[1..][i] == hits[i + 1];
      MatchCell(a, g, rules, host, hits[0], x);
      HitsElsewhere(ApplyMatch(a, g, rules, host, hits[0]), g, rules, host, hits[1..], x);
    }
  }

  lemma RestFits(g: WindowGraph, host: WindowNode, hits: seq<Hit>)
    requires hits != [] && HitsFit(g, host, hits)
    ensures HitsFit(g, host, hits[1..]) && !IsHit(hits[1..], hits[0].0)
    ensures forall h :: IsHit(hits, h) <==> h == hits[0].0 || IsHit(hits[1..], h)
  {
    assert forall i | 0 <= i < |hits[1..]| :: hits[1..][i] == hits[i + 1];
    forall h ensures IsHit(hits, h) <==> h == hits[0].0 || IsHit(hits[1..], h) {
      if IsHit(hits, h) && h != hits[0].0 {
        var i :| 0 <= i < |hits| && hits[i].0 == h;
        assert hits[1..][i - 1].0 == h;
      }
      if IsHit(hits[1..], h) {
        var i :| 0 <= i < |hits[1..]| && hits[1..][i].0 == h;
        assert hits[i + 1].0 == h;
      }
    }
  }

  /** A host among its own matches' turns. */
  lemma {:induction false} HostTurn(a: PopupPass, g: WindowGraph, rules: Rules, host: WindowNode, hits: seq<Hit>, x: WindowIdentity)
    requires g.WellKeyed() && HitsFit(g, host, hits) && x.hwnd == host.hwnd
    ensures PopupCell(ApplyMatches(a, g, rules, host, hits), x) ==
              if Allowed(rules, host) && hits != [] && x.hwnd !in a.handled then RetainLaw(PopupCell(a, x), x.hwnd, host.visible) else PopupCell(a, x)
    decreases hits
  {
    if hits != [] {
      RestFits(g, host, hits);
      MatchCell(a, g, rules, host, hits[0], x);
      HostTurn(ApplyMatch(a, g, rules, host, hits[0]), g, rules, host, hits[1..], x);
    }
  }

  /** A match among the others of its host. */
  lemma {:induction false} HitTurn(a: PopupPass, g: WindowGraph, rules: Rules, host: WindowNode, hits: seq<Hit>, h: Hwnd)
    requires g.WellKeyed() && HitsFit(g, host, hits) && h in g.nodes && h !in a.handled && IsHit(hits, h) && h != host.hwnd
    ensures var id, allowed := g.nodes[h].Identity(), Allowed(rules, host);
            var c := MatchLaw(PopupCell(a, id), allowed);
            PopupCell(ApplyMatches(a, g, rules, host, hits), id) == if allowed then RetainLaw(c, h, g.nodes[h].visible) else c
    decreases hits
  {
    var a1, id := ApplyMatch(a, g, rules, host, hits[0]), g.nodes[h].Identity();
    RestFits(g, host, hits);
    MatchCell(a, g, rules, host, hits[0], id);
    if h == hits[0].0 {
      HitsElsewhere(a1, g, rules, host, hits[1..], id);
    } else {
      HitTurn(a1, g, rules, host, hits[1..], h);
    }
  }

  /** The popup loop deals with `h` in the turn of this top-level window. */
  predicate Touches(g: WindowGraph, rules: Rules, mains: set<Hwnd>, host: Hwnd, h: Hwnd) {
    IsPopupHost(g, mains, host) && (h == host || IsHit(PopupMatches(g, rules, host), h))
  }

  predicate Roots(g: WindowGraph, hosts: seq<Hwnd>) {
    Ascending(hosts) && forall host | host in hosts :: host in g.nodes && g.nodes[host].structuralParent.None?
  }

  lemma HitsByHandle(hits: seq<Hit>, h: Hwnd)
    ensures IsHit(hits, h) <==> h in HitHandles(hits)
  {
    if h in HitHandles(hits) {
      var hit :| hit in hits && hit.0 == h;
      var i :| 0 <= i < |hits| && hits[i] == hit;
    }
  }

  lemma MatchHangs(g: WindowGraph, rules: Rules, host: Hwnd, hit: Hit)
    requires Forest(g) && host in g.nodes && g.nodes[host].structuralParent.None? && hit in PopupMatches(g, rules, host)
    ensures hit.0 in g.nodes && hit.0 != host && g.nodes[hit.0].structuralParent.Some?
  {
    MatchIsNew(g, rules, [], host, hit);
  }

  lemma MatchesFitHost(g: WindowGraph, rules: Rules, host: Hwnd)
    requires Forest(g) && host in g.nodes && g.nodes[host].structuralParent.None?
    ensures HitsFit(g, g.nodes[host], PopupMatches(g, rules, host))
    ensures forall h | IsHit(PopupMatches(g, rules, host), h) :: h in g.nodes && g.nodes[h].structuralParent.Some?
  {
    var hits := PopupMatches(g, rules, host);
    MatchingHitsKept(g, rules, Descendants(g, host, rules.popupSearchDepth));
    DescendantsOnceInOrder(g, host, rules.popupSearchDepth);
    forall i | 0 <= i < |hits|
      ensures hits[i].0 in g.nodes && hits[i].0 != host && g.nodes[hits[i].0].structuralParent.Some?
    {
      MatchHangs(g, rules, host, hits[i]);
    }
  }

  lemma TouchedOnce(g: WindowGraph, rules: Rules, mains: set<Hwnd>, host: Hwnd, other: Hwnd, h: Hwnd)
    requires Forest(g) && host in g.nodes && g.nodes[host].structuralParent.None? && other in g.nodes && g.nodes[other].structuralParent.None?
    requires Touches(g, rules, mains, host, h) && Touches(g, rules, mains, other, h)
    ensures host == other
  {
    MatchesFitHost(g, rules, host);
    MatchesFitHost(g, rules, other);
    if host != other && h != host && h != other {
      var hits := PopupMatches(g, rules, other);
      var i :| 0 <= i < |hits| && hits[i].0 == h;
      assert hits[i] in hits;
      HitsByHandle(PopupMatches(g, rules, host), h);
      MatchesApart(g, rules, host, other, hits[i]);
    }
  }

  function HostPass(a: PopupPass, g: WindowGraph, rules: Rules, mains: set<Hwnd>, host: Hwnd): PopupPass {
    if IsPopupHost(g, mains, host) then ApplyMatches(a, g, rules, g.nodes[host], PopupMatches(g, rules, host)) else a
  }

  lemma HostPassOther(a: PopupPass, g: WindowGraph, rules: Rules, mains: set<Hwnd>, host: Hwnd, x: WindowIdentity)
    requires Forest(g) && host in g.nodes && g.nodes[host].structuralParent.None? && !Touches(g, rules, mains, host, x.hwnd)
    ensures var a' := HostPass(a, g, rules, mains, host);
            PopupCell(a', x) == PopupCell(a, x) && (x.hwnd in a'.handled ==> x.hwnd in a.handled)
  {
    if IsPopupHost(g, mains, host) {
      var hits := PopupMatches(g, rules, host);
      MatchesFitHost(g, rules, host);
      HitsElsewhere(a, g, rules, g.nodes[host], hits, x);
      MatchesHandle(a, g, rules, g.nodes[host], hits);
      HitsByHandle(hits, x.hwnd);
    }
  }

  lemma {:induction false} PopupsOther(a: PopupPass, g: WindowGraph, rules: Rules, mains: set<Hwnd>, hosts: seq<Hwnd>, x: WindowIdentity)
    requires Forest(g) && Roots(g, hosts) && forall host | host in hosts :: !Touches(g, rules, mains, host, x.hwnd)
    ensures PopupCell(ApplyPopups(a, g, rules, mains, hosts), x) == PopupCell(a, x)
    decreases hosts
  {
    if hosts != [] {
      HostPassOther(a, g, rules, mains, hosts[0], x);
      PopupsOther(HostPass(a, g, rules, mains, hosts[0]), g, rules, mains, hosts[1..], x);
    }
  }

  /** For a window that belongs to `host` only the turn of `host` matters. */
  lemma {:induction false} PopupsTurn(a: PopupPass, g: WindowGraph, rules: Rules, mains: set<Hwnd>, hosts: seq<Hwnd>, host: Hwnd, x: WindowIdentity)
    returns (before: PopupPass)
    requires Forest(g) && Roots(g, hosts) && host in hosts && Touches(g, rules, mains, host, x.hwnd) && x.hwnd !in a.handled
    ensures PopupCell(before, x) == PopupCell(a, x) && x.hwnd !in before.handled
    ensures PopupCell(ApplyPopups(a, g, rules, mains, hosts), x) == PopupCell(HostPass(before, g, rules, mains, host), x)
    decreases hosts
  {
    var first, rest := hosts[0], hosts[1..];
    var a1 := HostPass(a, g, rules, mains, first);
    if first == host {
      before := a;
      forall other | other in rest ensures !Touches(g, rules, mains, other, x.hwnd) {
        if Touches(g, rules, mains, other, x.hwnd) {
          TouchedOnce(g, rules, mains, host, other, x.hwnd);
        }
      }
      PopupsOther(a1, g, rules, mains, rest, x);
    } else {
      if Touches(g, rules, mains, first, x.hwnd) {
        TouchedOnce(g, rules, mains, host, first, x.hwnd);
      }
      HostPassOther(a, g, rules, mains, first, x);
      before := PopupsTurn(a1, g, rules, mains, rest, host, x);
    }
  }
}

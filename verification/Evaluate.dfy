/** One evaluation of the window graph. Two traversals record verdicts per window identity: the
    diagnostic preview (`Inspect`) lists what would be done, the apply pass (`Apply`) plans it. The
    functions define both on values; the methods below run the loops on the worker's objects. */
module Evaluate {
  import opened Model
  import opened Ordering
  import opened Search
  import opened Signals

  datatype Settings = Settings(aggressiveMode: bool)

  /** One recorded verdict and whether it was acted upon. */
  datatype Verdict = Verdict(identity: WindowIdentity, decision: AdDecision, confirmed: bool)

  type States = map<WindowIdentity, CandidateState>

  /** The state map of an evaluation, the identities already judged this tick, and what was recorded. */
  datatype Store = Store(states: States, touched: set<WindowIdentity>, verdicts: seq<Verdict>)

  datatype Stored = Stored(store: Store, state: CandidateState, confirmed: bool)

  function StoreUpdate(s: Store, id: WindowIdentity, decision: AdDecision, ticks: int): Stored {
    var (st, confirmed) := UpdateCandidateState(if id in s.states then s.states[id] else UNSEEN, decision, ticks);
    Stored(s.(states := s.states[id := st], verdicts := s.verdicts + [Verdict(id, decision, confirmed)]), st, confirmed)
  }

  /** At most one miss per window and tick; a match always goes through. */
  function StoreOnce(s: Store, id: WindowIdentity, decision: AdDecision, ticks: int, track: bool): Option<Stored> {
    if decision.Matched() || (track && id !in s.touched)
    then Some(StoreUpdate(s.(touched := s.touched + {id}), id, decision, ticks))
    else None
  }

  // ---------------------------------------------------------------- who is looked at

  /** Top-level windows of the watched processes, by handle. */
  function TopLevel(g: WindowGraph): seq<Hwnd> {
    SortedSeq(set h | h in g.nodes && g.nodes[h].structuralParent.None? && g.nodes[h].pid in g.pids)
  }

  predicate IsConfirmedMain(g: WindowGraph, rules: Rules, h: Hwnd) {
    && h in g.nodes
    && g.nodes[h].className in rules.mainWindowClasses
    && g.nodes[h].Win32Parent() == 0
    && HasMainViewSignature(g, rules, h)
  }

  function ConfirmedMains(g: WindowGraph, rules: Rules): seq<Hwnd> {
    Filtered(TopLevel(g), h => IsConfirmedMain(g, rules, h))
  }

  predicate IsCandidate(g: WindowGraph, rules: Rules, mains: set<Hwnd>, h: Hwnd) {
    && h in g.nodes
    && g.nodes[h].className in rules.adCandidateClasses
    && if g.nodes[h].Win32Parent() in mains then g.nodes[h].Text() == ""
       else g.nodes[h].Win32Parent() == 0 && !LegacySignatureKind(g, rules, h).NoLegacy?
  }

  function Candidates(g: WindowGraph, rules: Rules, mains: set<Hwnd>): seq<Hwnd> {
    Filtered(TopLevel(g), h => IsCandidate(g, rules, mains, h))
  }

  /** The descendants of a host whose class marks a popup advertisement, nearest first. */
  function PopupMatches(g: WindowGraph, rules: Rules, host: Hwnd): seq<Hit> {
    MatchingHits(g, rules, Descendants(g, host, rules.popupSearchDepth))
  }

  function MatchingHits(g: WindowGraph, rules: Rules, hits: seq<Hit>): seq<Hit> {
    if hits == [] then []
    else
      var h := hits[0].0;
      (if h in g.nodes && g.nodes[h].className in rules.popupAdClasses then [hits[0]] else []) + MatchingHits(g, rules, hits[1..])
  }

  // ---------------------------------------------------------------- one main window

  /** What is known about one child of a main window before any verdict is recorded. */
  datatype ChildContext = ChildContext(
    child: Hwnd,
    identity: WindowIdentity,
    className: string,
    text: string,
    childRect: Option<Rect>,
    aggressive: AdDecision,
    currentRect: Option<Rect>,
    adSignal: bool)

  predicate IsTreeChild(g: WindowGraph, wnd: Hwnd, c: Hwnd) { c in g.nodes && g.nodes[c].Win32Parent() == wnd }

  function ContextOf(g: WindowGraph, settings: Settings, rules: Rules, c: Hwnd, parentRect: Rect): ChildContext
    requires c in g.nodes
  {
    var node := g.nodes[c];
    var childRect := if settings.aggressiveMode then node.rect else None;
    var aggressive :=
      if childRect.Some?
      then AggressiveDecision(rules, node.className, childRect.value, parentRect, SubtreeContainsAdToken(g, rules, c))
      else NoDecision(BLANK);
    var legacy := rules.closeEmptyEvaChildRequiresAdSignal && !LegacySignatureKind(g, rules, c).NoLegacy?;
    ChildContext(c, node.Identity(), node.className, node.Text(), childRect, aggressive, node.rect,
                 legacy || aggressive.Matched())
  }

  function Contexts(g: WindowGraph, settings: Settings, rules: Rules, wnd: Hwnd, children: seq<Hwnd>, parentRect: Rect): seq<ChildContext> {
    if children == [] then []
    else
      (if IsTreeChild(g, wnd, children[0]) then [ContextOf(g, settings, rules, children[0], parentRect)] else [])
      + Contexts(g, settings, rules, wnd, children[1..], parentRect)
  }

  predicate AnyAdSignal(ctxs: seq<ChildContext>) { exists c | c in ctxs :: c.adSignal }

  /** The verdict on an empty EVA child, when the shape applies at all. */
  function CloseVerdict(g: WindowGraph, rules: Rules, c: ChildContext, parentText: string, adSignal: bool): Option<AdDecision> {
    if c.className == rules.evaChildClass && c.text == "" && parentText != ""
    then Some(EmptyEvaDecision(rules, c.className, c.text, parentText,
                               ClassNameStartsWith(g, c.child, rules.customScrollPrefix), adSignal))
    else None
  }

  // ---------------------------------------------------------------- the apply pass

  datatype Log = Log(
    hides: seq<Hwnd>,
    closes: seq<Hwnd>,
    setPos: seq<Pos>,
    hidden: int,
    closed: int,
    resized: int,
    popupCloseRequests: int,
    popupHideFallbacks: int,
    popupZeroSizeFallbacks: int)
  {
    function HideWindow(h: Hwnd): Log { this.(hides := hides + [h]) }
    function SetPos(p: Pos): Log { this.(setPos := setPos + [p]) }
    function SendClose(h: Hwnd): Log { this.(closes := closes + [h], closed := closed + 1) }
    function SendPopupClose(h: Hwnd): Log { this.(closes := closes + [h], popupCloseRequests := popupCloseRequests + 1) }
  }

  const EMPTY_LOG := Log([], [], [], 0, 0, 0, 0, 0, 0)

  datatype Pass = Pass(store: Store, log: Log)

  function ApplyClose(a: Pass, g: WindowGraph, rules: Rules, c: ChildContext, parentText: string, adSignal: bool): Pass {
    var verdict := CloseVerdict(g, rules, c, parentText, adSignal);
    if verdict.None? then a
    else
      var track := !verdict.value.Matched() && (c.identity in a.store.states || verdict.value.signals.HasRelevantSignal());
      match StoreOnce(a.store, c.identity, verdict.value, rules.weakSignalConfirmTicks, track)
      case None => a
      case Some(r) => Pass(r.store, if r.confirmed then a.log.SendClose(c.child) else a.log)
  }

  function ApplyResize(a: Pass, rules: Rules, c: ChildContext, parentRect: Rect): Pass {
    match PlannedViewResize(rules, c.text, parentRect, c.currentRect)
    case None => a
    case Some((width, height)) =>
      a.(log := a.log.SetPos(Pos(c.child, 0, 0, width, height)).(resized := a.log.resized + 1))
  }

  function ApplyAggressive(a: Pass, settings: Settings, rules: Rules, c: ChildContext): Pass {
    if !settings.aggressiveMode || c.childRect.None? then a
    else
      var track := !c.aggressive.Matched() && c.identity in a.store.states;
      match StoreOnce(a.store, c.identity, c.aggressive, rules.weakSignalConfirmTicks, track)
      case None => a
      case Some(r) =>
        Pass(r.store, if r.confirmed && c.aggressive.action.Hide?
                      then a.log.HideWindow(c.child).(hidden := a.log.hidden + 1) else a.log)
  }

  function ApplyChild(a: Pass, g: WindowGraph, settings: Settings, rules: Rules, c: ChildContext,
                      parentText: string, parentRect: Rect, adSignal: bool): Pass {
    var a1 := ApplyClose(a, g, rules, c, parentText, adSignal);
    var a2 := ApplyResize(a1, rules, c, parentRect);
    ApplyAggressive(a2, settings, rules, c)
  }

  function ApplyChildren(a: Pass, g: WindowGraph, settings: Settings, rules: Rules, ctxs: seq<ChildContext>,
                         parentText: string, parentRect: Rect, adSignal: bool): Pass
    decreases ctxs
  {
    if ctxs == [] then a
    else
      ApplyChildren(ApplyChild(a, g, settings, rules, ctxs[0], parentText, parentRect, adSignal),
                    g, settings, rules, ctxs[1..], parentText, parentRect, adSignal)
  }

  function ApplyMain(a: Pass, g: WindowGraph, settings: Settings, rules: Rules, wnd: Hwnd): Pass {
    if wnd !in g.nodes || g.nodes[wnd].pid !in g.pids || g.nodes[wnd].rect.None? then a
    else
      var rect := g.nodes[wnd].rect.value;
      var ctxs := Contexts(g, settings, rules, wnd, g.ChildrenOf(wnd), rect);
      ApplyChildren(a, g, settings, rules, ctxs, g.nodes[wnd].Text(), rect, AnyAdSignal(ctxs))
  }

  function ApplyMains(a: Pass, g: WindowGraph, settings: Settings, rules: Rules, mains: seq<Hwnd>): Pass
    decreases mains
  {
    if mains == [] then a else ApplyMains(ApplyMain(a, g, settings, rules, mains[0]), g, settings, rules, mains[1..])
  }

  function ApplyCandidate(a: Pass, g: WindowGraph, rules: Rules, wnd: Hwnd): Pass {
    if wnd !in g.nodes || g.nodes[wnd].pid !in g.pids then a
    else
      var id := g.nodes[wnd].Identity();
      var decision := LegacyDecision(LegacySignatureKind(g, rules, wnd));
      var track := !decision.Matched() && id in a.store.states;
      match StoreOnce(a.store, id, decision, rules.weakSignalConfirmTicks, track)
      case None => a
      case Some(r) =>
        Pass(r.store, if r.confirmed && decision.action.Hide?
                      then a.log.HideWindow(wnd).(hidden := a.log.hidden + 1) else a.log)
  }

  function ApplyCandidates(a: Pass, g: WindowGraph, rules: Rules, candidates: seq<Hwnd>): Pass
    decreases candidates
  {
    if candidates == [] then a else ApplyCandidates(ApplyCandidate(a, g, rules, candidates[0]), g, rules, candidates[1..])
  }

  /** A visible popup is asked to close; hidden or not, it is kept hidden and without area. */
  function RetainPopup(log: Log, h: Hwnd, visible: bool): Log {
    if visible
    then
      log.SendPopupClose(h).HideWindow(h).SetPos(Pos(h, 0, 0, 0, 0)).(
        popupHideFallbacks := log.popupHideFallbacks + 1,
        popupZeroSizeFallbacks := log.popupZeroSizeFallbacks + 1,
        hidden := log.hidden + 1)
    else log.HideWindow(h).SetPos(Pos(h, 0, 0, 0, 0))
  }

  /** The popup loop also remembers which windows it has already dealt with. */
  datatype PopupPass = PopupPass(store: Store, log: Log, handled: set<Hwnd>)

  function RetainOnce(a: PopupPass, h: Hwnd, visible: bool): PopupPass {
    if h in a.handled then a else a.(log := RetainPopup(a.log, h, visible), handled := a.handled + {h})
  }

  function ApplyMatch(a: PopupPass, g: WindowGraph, rules: Rules, host: WindowNode, hit: Hit): PopupPass {
    var guard := PopupHostGuard(rules, host);
    var a1 :=
      if hit.0 in g.nodes
      then a.(store := StoreUpdate(a.store, g.nodes[hit.0].Identity(), PopupDecision(guard, hit.1), rules.weakSignalConfirmTicks).store)
      else a;
    if !guard.Allow? then a1
    else RetainOnce(RetainOnce(a1, host.hwnd, host.visible), hit.0, hit.0 in g.nodes && g.nodes[hit.0].visible)
  }

  function ApplyMatches(a: PopupPass, g: WindowGraph, rules: Rules, host: WindowNode, hits: seq<Hit>): PopupPass
    decreases hits
  {
    if hits == [] then a else ApplyMatches(ApplyMatch(a, g, rules, host, hits[0]), g, rules, host, hits[1..])
  }

  predicate IsPopupHost(g: WindowGraph, mains: set<Hwnd>, h: Hwnd) {
    h in g.nodes && g.nodes[h].Win32Parent() == 0 && h !in mains
  }

  function ApplyPopups(a: PopupPass, g: WindowGraph, rules: Rules, mains: set<Hwnd>, hosts: seq<Hwnd>): PopupPass
    decreases hosts
  {
    if hosts == [] then a
    else
      ApplyPopups(if IsPopupHost(g, mains, hosts[0])
                  then ApplyMatches(a, g, rules, g.nodes[hosts[0]], PopupMatches(g, rules, hosts[0])) else a,
                  g, rules, mains, hosts[1..])
  }

  function Apply(g: WindowGraph, settings: Settings, rules: Rules, states: States): Pass {
    var mains := ConfirmedMains(g, rules);
    var a1 := ApplyMains(Pass(Store(states, {}, []), EMPTY_LOG), g, settings, rules, mains);
    var a2 := ApplyCandidates(a1, g, rules, Candidates(g, rules, Members(mains)));
    var a3 := ApplyPopups(PopupPass(a2.store, a2.log, {}), g, rules, Members(mains), TopLevel(g));
    Pass(a3.store, a3.log)
  }

  /** The plan handed to the engine: handles sorted without repetition, placements in order. */
  function PlanOf(log: Log): Plan {
    Plan(SortedSeq(Members(log.hides)), log.setPos, SortedSeq(Members(log.closes)))
  }

  // ---------------------------------------------------------------- the preview

  /** The action as reported: a match still waiting for confirmation is pending. */
  datatype PayloadAction = PayloadAction(pending: bool, kind: ActionKind)

  datatype Payload = Payload(
    identity: WindowIdentity,
    signals: AdSignals,
    strength: Strength,
    action: PayloadAction,
    matchStreak: int,
    missStreak: int)

  function PayloadOf(id: WindowIdentity, decision: AdDecision, r: Stored): Payload {
    Payload(id, decision.signals, decision.strength,
            PayloadAction(decision.Matched() && !r.confirmed, decision.action), r.state.matchStreak, r.state.missStreak)
  }

  datatype Preview = Preview(store: Store, payloads: seq<Payload>)

  function InspectOne(p: Preview, id: WindowIdentity, decision: AdDecision, rules: Rules): Preview {
    var track := !decision.Matched() && (id in p.store.states || decision.signals.HasRelevantSignal());
    match StoreOnce(p.store, id, decision, rules.weakSignalConfirmTicks, track)
    case None => p
    case Some(r) => Preview(r.store, p.payloads + [PayloadOf(id, decision, r)])
  }

  function InspectChild(p: Preview, g: WindowGraph, settings: Settings, rules: Rules, c: ChildContext,
                        parentText: string, adSignal: bool): Preview {
    var verdict := CloseVerdict(g, rules, c, parentText, adSignal);
    var p1 := if verdict.Some? then InspectOne(p, c.identity, verdict.value, rules) else p;
    if !settings.aggressiveMode || c.childRect.None? then p1 else InspectOne(p1, c.identity, c.aggressive, rules)
  }

  function InspectChildren(p: Preview, g: WindowGraph, settings: Settings, rules: Rules, ctxs: seq<ChildContext>,
                           parentText: string, adSignal: bool): Preview
    decreases ctxs
  {
    if ctxs == [] then p
    else
      InspectChildren(InspectChild(p, g, settings, rules, ctxs[0], parentText, adSignal),
                      g, settings, rules, ctxs[1..], parentText, adSignal)
  }

  function InspectMain(p: Preview, g: WindowGraph, settings: Settings, rules: Rules, wnd: Hwnd): Preview {
    if wnd !in g.nodes || g.nodes[wnd].rect.None? then p
    else
      var ctxs := Contexts(g, settings, rules, wnd, g.ChildrenOf(wnd), g.nodes[wnd].rect.value);
      InspectChildren(p, g, settings, rules, ctxs, g.nodes[wnd].Text(), AnyAdSignal(ctxs))
  }

  function InspectMains(p: Preview, g: WindowGraph, settings: Settings, rules: Rules, mains: seq<Hwnd>): Preview
    decreases mains
  {
    if mains == [] then p else InspectMains(InspectMain(p, g, settings, rules, mains[0]), g, settings, rules, mains[1..])
  }

  function InspectCandidates(p: Preview, g: WindowGraph, rules: Rules, candidates: seq<Hwnd>): Preview
    decreases candidates
  {
    if candidates == [] then p
    else
      var wnd := candidates[0];
      InspectCandidates(if wnd in g.nodes
                        then InspectOne(p, g.nodes[wnd].Identity(), LegacyDecision(LegacySignatureKind(g, rules, wnd)), rules)
                        else p,
                        g, rules, candidates[1..])
  }

  function InspectPopup(p: Preview, id: WindowIdentity, decision: AdDecision, rules: Rules): Preview {
    var r := StoreUpdate(p.store, id, decision, rules.weakSignalConfirmTicks);
    Preview(r.store, p.payloads + [PayloadOf(id, decision, r)])
  }

  /** Unlike the apply pass, the preview also records the host of an allowed popup. */
  function InspectMatch(p: Preview, g: WindowGraph, rules: Rules, host: WindowNode, hit: Hit): Preview
    requires hit.0 in g.nodes
  {
    var guard := PopupHostGuard(rules, host);
    var decision := PopupDecision(guard, hit.1);
    var p1 := if guard.Allow? then InspectPopup(p, host.Identity(), decision, rules) else p;
    InspectPopup(p1, g.nodes[hit.0].Identity(), decision, rules)
  }

  function InspectMatches(p: Preview, g: WindowGraph, rules: Rules, host: WindowNode, hits: seq<Hit>): Preview
    requires forall hit | hit in hits :: hit.0 in g.nodes
    decreases hits
  {
    if hits == [] then p
    else InspectMatches(InspectMatch(p, g, rules, host, hits[0]), g, rules, host, hits[1..])
  }

  lemma {:induction false} MatchingHitsKept(g: WindowGraph, rules: Rules, hits: seq<Hit>)
    ensures forall hit :: hit in MatchingHits(g, rules, hits)
              <==> hit in hits && hit.0 in g.nodes && g.nodes[hit.0].className in rules.popupAdClasses
    ensures Once(hits) ==> Once(MatchingHits(g, rules, hits))
  {
    if hits != [] {
      MatchingHitsKept(g, rules, hits[1..]);
      assert hits == [hits[0]] + hits[1..];
      if Once(hits) {
        assert Once(hits[1..]);
        forall hit | hit in hits[1..] ensures hit.0 != hits[0].0 {
        }
      }
    }
  }

  function InspectPopups(p: Preview, g: WindowGraph, rules: Rules, mains: set<Hwnd>, hosts: seq<Hwnd>): Preview
    decreases hosts
  {
    if hosts == [] then p
    else
      MatchingHitsKept(g, rules, Descendants(g, hosts[0], rules.popupSearchDepth));
      InspectPopups(if IsPopupHost(g, mains, hosts[0])
                    then InspectMatches(p, g, rules, g.nodes[hosts[0]], PopupMatches(g, rules, hosts[0])) else p,
                    g, rules, mains, hosts[1..])
  }

  function Inspect(g: WindowGraph, settings: Settings, rules: Rules, states: States): Preview {
    var mains := ConfirmedMains(g, rules);
    var p1 := InspectMains(Preview(Store(states, {}, []), []), g, settings, rules, mains);
    var p2 := InspectCandidates(p1, g, rules, Candidates(g, rules, Members(mains)));
    InspectPopups(p2, g, rules, Members(mains), TopLevel(g))
  }
}

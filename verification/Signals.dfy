/** Verdicts on single windows: the configured rules, the text and geometry tests, and the decisions
    they lead to. */
module Signals {
  import opened Model
  import opened Search
  import opened Tokens

  /** The layout rules, with the two Unicode operations they rely on. */
  datatype Rules = Rules(
    mainWindowClasses: seq<string>,
    adCandidateClasses: seq<string>,
    mainViewPrefix: string,
    lockViewPrefix: string,
    evaChildClass: string,
    customScrollPrefix: string,
    chromeLegacyTitle: string,
    chromeLegacyTitleContains: seq<string>,
    chromeWidgetPrefixes: seq<string>,
    popupAdClasses: seq<string>,
    popupSearchDepth: int,
    popupHostTextContains: seq<string>,
    popupHostRequireEmptyText: bool,
    aggressiveAdTokens: seq<string>,
    bannerMinHeightPx: int,
    bannerMaxHeightPx: int,
    bannerMinWidthRatio: real,
    bannerBottomMarginPx: int,
    hideBottomBannerWithoutToken: bool,
    closeEmptyEvaChildRequiresAdSignal: bool,
    layoutShadowPaddingPx: int,
    mainViewPaddingPx: int,
    weakSignalConfirmTicks: int,
    lower: string -> string,
    trim: string -> string)

  const SEARCH_DEPTH := 8

  datatype LegacyKind = NoLegacy | Exact | Substring
  datatype PopupGuard = Na | Allow | Blocked
  datatype Strength = NoStrength | Weak | Strong
  datatype ActionKind = NoAction | Hide | Close | DismissPopup

  datatype AdSignals = AdSignals(
    legacySignature: LegacyKind,
    popupDirectClass: bool,
    popupDescendantClass: bool,
    popupMatchDepth: int,
    chromeWidgetBottomBanner: bool,
    subtreeAdToken: bool,
    emptyEvaChild: bool,
    popupHostGuard: PopupGuard)
  {
    predicate HasRelevantSignal() {
      || !legacySignature.NoLegacy?
      || popupDirectClass
      || popupDescendantClass
      || chromeWidgetBottomBanner
      || subtreeAdToken
      || emptyEvaChild
    }
  }

  const BLANK := AdSignals(NoLegacy, false, false, 0, false, false, false, Na)

  datatype AdDecision = AdDecision(signals: AdSignals, strength: Strength, action: ActionKind) {
    predicate Matched() { !strength.NoStrength? && !action.NoAction? }
  }

  function NoDecision(signals: AdSignals): AdDecision { AdDecision(signals, NoStrength, NoAction) }

  // ---------------------------------------------------------------- text tests

  predicate StartsWith(s: string, prefix: string) { prefix <= s }

  predicate ClassNameStartsWith(g: WindowGraph, h: Hwnd, prefix: string) {
    SubtreeAny(g, (n: WindowNode) => StartsWith(n.className, prefix), h, SEARCH_DEPTH)
  }

  predicate HasWindowText(g: WindowGraph, h: Hwnd, target: string) {
    SubtreeAny(g, (n: WindowNode) => n.Text() == target, h, SEARCH_DEPTH)
  }

  predicate HasWindowTextContains(g: WindowGraph, rules: Rules, h: Hwnd, target: string) {
    var needle := rules.lower(target);
    && needle != ""
    && SubtreeAny(g, (n: WindowNode) => n.Text() != "" && Contains(rules.lower(n.Text()), needle), h, SEARCH_DEPTH)
  }

  function Lowered(tokens: seq<string>, lower: string -> string): seq<string> {
    seq(|tokens|, i requires 0 <= i < |tokens| => lower(tokens[i]))
  }

  predicate SubtreeContainsAdToken(g: WindowGraph, rules: Rules, h: Hwnd) {
    var tokens := Lowered(rules.aggressiveAdTokens, rules.lower);
    SubtreeAny(g, (n: WindowNode) => ContainsAnyToken(tokens, rules.lower(n.Text())), h, SEARCH_DEPTH)
  }

  function LegacySignatureKind(g: WindowGraph, rules: Rules, h: Hwnd): LegacyKind {
    if HasWindowText(g, h, rules.chromeLegacyTitle) then Exact
    else if exists t | t in rules.chromeLegacyTitleContains :: t != "" && HasWindowTextContains(g, rules, h, t) then Substring
    else NoLegacy
  }

  predicate PopupHostTextMatches(rules: Rules, text: string, known: bool) {
    && known
    && var normalized := rules.trim(text);
       || normalized == ""
       || (exists t | t in rules.popupHostTextContains :: t != "" && Contains(rules.lower(normalized), rules.lower(t)))
       || !rules.popupHostRequireEmptyText
  }

  function PopupHostGuard(rules: Rules, node: WindowNode): PopupGuard {
    if PopupHostTextMatches(rules, node.Text(), node.TextKnown()) then Allow else Blocked
  }

  predicate HasMainViewSignature(g: WindowGraph, rules: Rules, parent: Hwnd) {
    exists c | c in g.ChildrenOf(parent) ::
      && c in g.nodes
      && g.nodes[c].className == rules.evaChildClass
      && (StartsWith(g.nodes[c].Text(), rules.mainViewPrefix) || StartsWith(g.nodes[c].Text(), rules.lockViewPrefix))
  }

  predicate IsChromeWidgetClass(rules: Rules, className: string) {
    exists p | p in rules.chromeWidgetPrefixes :: StartsWith(className, p)
  }

  // ---------------------------------------------------------------- geometry tests

  function Abs(n: int): int { if n < 0 then -n else n }

  predicate IsBottomBanner(rules: Rules, child: Rect, parent: Rect) {
    && rules.bannerMinHeightPx <= child.Height() <= rules.bannerMaxHeightPx
    && parent.Width() > 0
    && child.Width() as real / parent.Width() as real >= rules.bannerMinWidthRatio
    && Abs(child.bottom - parent.bottom) <= rules.bannerBottomMarginPx
  }

  /** The size the main or lock view should have, if it does not have it already. */
  function PlannedViewResize(rules: Rules, text: string, parent: Rect, current: Option<Rect>): Option<(int, int)> {
    if !StartsWith(text, rules.mainViewPrefix) && !StartsWith(text, rules.lockViewPrefix) then None
    else
      var width := parent.Width() - rules.layoutShadowPaddingPx;
      var height := if StartsWith(text, rules.mainViewPrefix) then parent.Height() - rules.mainViewPaddingPx else parent.Height();
      if width < 1 || height < 1 then None
      else if current.Some? && current.value.Width() == width && current.value.Height() == height then None
      else Some((width, height))
  }

  // ---------------------------------------------------------------- decisions

  function PopupDecision(guard: PopupGuard, depth: int): AdDecision {
    var signals := BLANK.(popupDirectClass := depth == 1, popupDescendantClass := true,
                          popupMatchDepth := depth, popupHostGuard := guard);
    if guard.Allow? then AdDecision(signals, Strong, DismissPopup) else NoDecision(signals)
  }

  function LegacyDecision(kind: LegacyKind): AdDecision {
    var signals := BLANK.(legacySignature := kind);
    match kind
    case Exact => AdDecision(signals, Strong, Hide)
    case Substring => AdDecision(signals, Weak, Hide)
    case NoLegacy => NoDecision(signals)
  }

  function AggressiveDecision(rules: Rules, className: string, child: Rect, parent: Rect, hasToken: bool): AdDecision {
    var chrome := IsChromeWidgetClass(rules, className);
    var banner := chrome && IsBottomBanner(rules, child, parent);
    var signals := BLANK.(subtreeAdToken := hasToken, chromeWidgetBottomBanner := banner);
    if banner && hasToken then AdDecision(signals, Strong, Hide)
    else if banner && rules.hideBottomBannerWithoutToken then AdDecision(signals, Strong, Hide)
    else if chrome && hasToken then AdDecision(signals, Weak, Hide)
    else NoDecision(signals)
  }

  function EmptyEvaDecision(rules: Rules, className: string, text: string, parentText: string,
                            customScroll: bool, adSignal: bool): AdDecision {
    var empty := className == rules.evaChildClass && text == "" && parentText != "" && !customScroll;
    var signals := BLANK.(emptyEvaChild := empty);
    if empty && (adSignal || !rules.closeEmptyEvaChildRequiresAdSignal) then AdDecision(signals, Weak, Close)
    else NoDecision(signals)
  }

  // ---------------------------------------------------------------- confirmation

  datatype CandidateState = CandidateState(matchStreak: int, missStreak: int)

  const UNSEEN := CandidateState(0, 0)

  function UpdateCandidateState(st: CandidateState, decision: AdDecision, ticks: int): (CandidateState, bool) {
    var next :=
      if decision.Matched() then CandidateState(st.matchStreak + 1, 0)
      else CandidateState(0, st.missStreak + 1);
    (next, decision.Matched() && (decision.strength.Strong? || next.matchStreak >= Confirmations(ticks)))
  }

  function Confirmations(ticks: int): int { if ticks < 1 then 1 else ticks }
}

/** The single tests behind the verdicts, in terms of windows, paths, edges of rectangles and positions in texts. */
module Leaves {
  import opened Model
  import opened Ordering
  import opened Search
  import opened Tokens
  import opened Signals
  import opened Evaluate

  /** `x` is the window `h` or found at most eight generations below it. */
  ghost predicate AtOrBelow(g: WindowGraph, h: Hwnd, x: Hwnd) {
    x in g.nodes && exists d: nat :: d <= 8 && Reach(g, h, x, d)
  }

  lemma TestedAtOrBelow(g: WindowGraph, test: WindowNode -> bool, h: Hwnd)
    requires g.children.Keys <= g.nodes.Keys
    ensures SubtreeAny(g, test, h, SEARCH_DEPTH) <==> exists x :: AtOrBelow(g, h, x) && test(g.nodes[x])
  {
    SubtreeAnyIsPath(g, test, h, SEARCH_DEPTH);
    if x, d: nat :| d <= SEARCH_DEPTH && Reach(g, h, x, d) && x in g.nodes && test(g.nodes[x]) {
      assert AtOrBelow(g, h, x);
    }
  }

  /** A title counts as legacy, and for sure, if it is the configured one; and as a weaker sign if it contains
      one of the configured parts, whatever their case. */
  lemma LegacyMeans(g: WindowGraph, rules: Rules, h: Hwnd)
    requires g.children.Keys <= g.nodes.Keys
    ensures var kind := LegacySignatureKind(g, rules, h);
            && (kind.Exact? <==> exists x :: AtOrBelow(g, h, x) && g.nodes[x].Text() == rules.chromeLegacyTitle)
            && (kind.Substring? <==> !kind.Exact? && exists t, x :: t in rules.chromeLegacyTitleContains && AtOrBelow(g, h, x) && PartOf(g, rules, t, x))
  {
    TestedAtOrBelow(g, (n: WindowNode) => n.Text() == rules.chromeLegacyTitle, h);
    forall t | t in rules.chromeLegacyTitleContains
      ensures t != "" && HasWindowTextContains(g, rules, h, t) <==> exists x :: AtOrBelow(g, h, x) && PartOf(g, rules, t, x)
    {
      PartBelow(g, rules, h, t);
    }
  }

  predicate HereIs(text: string, part: string, i: nat) { i + |part| <= |text| && text[i..i + |part|] == part }

  predicate Somewhere(text: string, part: string) { exists i: nat | i <= |text| :: HereIs(text, part, i) }

  lemma SomewhereMeans(text: string, part: string)
    ensures Contains(text, part) <==> Somewhere(text, part)
  {
    forall i: nat | i <= |text| ensures OccursAt(text, part, i) == HereIs(text, part, i) {
    }
  }

  predicate PartOf(g: WindowGraph, rules: Rules, t: string, x: Hwnd)
    requires x in g.nodes
  {
    && t != "" && rules.lower(t) != "" && g.nodes[x].Text() != ""
    && Somewhere(rules.lower(g.nodes[x].Text()), rules.lower(t))
  }

  lemma PartBelow(g: WindowGraph, rules: Rules, h: Hwnd, t: string)
    requires g.children.Keys <= g.nodes.Keys
    ensures t != "" && HasWindowTextContains(g, rules, h, t) <==> exists x :: AtOrBelow(g, h, x) && PartOf(g, rules, t, x)
  {
    var needle := rules.lower(t);
    TestedAtOrBelow(g, (n: WindowNode) => n.Text() != "" && Contains(rules.lower(n.Text()), needle), h);
    forall x | x in g.nodes ensures Contains(rules.lower(g.nodes[x].Text()), needle) == Somewhere(rules.lower(g.nodes[x].Text()), needle) {
      SomewhereMeans(rules.lower(g.nodes[x].Text()), needle);
    }
  }

  /** An advertisement token: one of at most two letters or digits must be a whole word, any other may be
      anywhere in the lowered title. */
  predicate TokenIn(rules: Rules, text: string) {
    exists i :: 0 <= i < |rules.aggressiveAdTokens| && TokenMatches(rules.lower(rules.aggressiveAdTokens[i]), rules.lower(text))
  }

  predicate TokenMatches(t: string, low: string) {
    if |t| <= 2 && forall k | 0 <= k < |t| :: InWord(t[k]) || 'A' <= t[k] <= 'Z'
    then exists i: nat, j: nat | i <= |low| && j <= |low| :: WordAt(low, i, j) && low[i..j] == t
    else Somewhere(low, t)
  }

  predicate InWord(c: char) { '0' <= c <= '9' || 'a' <= c <= 'z' }

  predicate WordAt(low: string, i: nat, j: nat) {
    && i < j <= |low| && (forall k | i <= k < j :: InWord(low[k]))
    && (i == 0 || !InWord(low[i - 1])) && (j == |low| || !InWord(low[j]))
  }

  lemma ShortMeans(t: string)
    ensures WholeWord(t) <==> |t| <= 2 && forall k | 0 <= k < |t| :: InWord(t[k]) || 'A' <= t[k] <= 'Z'
  {
    assert forall k | 0 <= k < |t| :: t[k] in t;
  }

  lemma WordMeans(t: string, low: string)
    ensures t in Words(low) <==> exists i: nat, j: nat | i <= |low| && j <= |low| :: WordAt(low, i, j) && low[i..j] == t
  {
    assert forall i: nat, j: nat :: MaximalRun(low, i, j) <==> WordAt(low, i, j);
  }

  lemma TokenMatchesMeans(t: string, low: string)
    ensures Matches(t, low) <==> TokenMatches(t, low)
  {
    ShortMeans(t);
    WordMeans(t, low);
    SomewhereMeans(low, t);
  }

  lemma TokenBelow(g: WindowGraph, rules: Rules, h: Hwnd)
    requires g.children.Keys <= g.nodes.Keys
    ensures SubtreeContainsAdToken(g, rules, h) <==> exists x :: AtOrBelow(g, h, x) && TokenIn(rules, g.nodes[x].Text())
  {
    var tokens := Lowered(rules.aggressiveAdTokens, rules.lower);
    TestedAtOrBelow(g, (n: WindowNode) => ContainsAnyToken(tokens, rules.lower(n.Text())), h);
    forall x | x in g.nodes ensures ContainsAnyToken(tokens, rules.lower(g.nodes[x].Text())) <==> TokenIn(rules, g.nodes[x].Text()) {
      AnyTokenIn(rules, g.nodes[x].Text());
    }
  }

  lemma AnyTokenIn(rules: Rules, text: string)
    ensures ContainsAnyToken(Lowered(rules.aggressiveAdTokens, rules.lower), rules.lower(text)) <==> TokenIn(rules, text)
  {
    var tokens, low := Lowered(rules.aggressiveAdTokens, rules.lower), rules.lower(text);
    if ContainsAnyToken(tokens, low) {
      var t :| t in tokens && Matches(t, low);
      var i :| 0 <= i < |tokens| && tokens[i] == t;
      TokenMatchesMeans(t, low);
      assert TokenMatches(rules.lower(rules.aggressiveAdTokens[i]), low);
    }
    if TokenIn(rules, text) {
      var i :| 0 <= i < |rules.aggressiveAdTokens| && TokenMatches(rules.lower(rules.aggressiveAdTokens[i]), low);
      TokenMatchesMeans(tokens[i], low);
      assert tokens[i] in tokens;
    }
  }

  lemma ScrollBelow(g: WindowGraph, rules: Rules, h: Hwnd)
    requires g.children.Keys <= g.nodes.Keys
    ensures ClassNameStartsWith(g, h, rules.customScrollPrefix) <==>
              exists x :: AtOrBelow(g, h, x) && rules.customScrollPrefix <= g.nodes[x].className
  {
    TestedAtOrBelow(g, (n: WindowNode) => StartsWith(n.className, rules.customScrollPrefix), h);
  }

  /** A confirmed main window: an unowned top-level window of a main class and a watched process with a child
      of the EVA class whose title starts like that of a main or lock view. */
  lemma MainMeans(g: WindowGraph, rules: Rules, m: Hwnd)
    ensures m in ConfirmedMains(g, rules) <==>
              && m in g.nodes && g.nodes[m].pid in g.pids && g.nodes[m].structuralParent.None? && g.nodes[m].Win32Parent() == 0
              && g.nodes[m].className in rules.mainWindowClasses
              && exists c :: c in g.ChildrenOf(m) && c in g.nodes && g.nodes[c].className == rules.evaChildClass
                   && (rules.mainViewPrefix <= g.nodes[c].Text() || rules.lockViewPrefix <= g.nodes[c].Text())
  {
    FilteredKeeps(TopLevel(g), h => IsConfirmedMain(g, rules, h));
    SortedSeqSorts(set h | h in g.nodes && g.nodes[h].structuralParent.None? && g.nodes[h].pid in g.pids);
  }

  /** A candidate: a top-level window of a candidate class that a main window owns and that has no text, or
      that nobody owns and that shows a legacy title. */
  lemma CandidateIs(g: WindowGraph, rules: Rules, mains: set<Hwnd>, h: Hwnd)
    requires h in TopLevel(g)
    ensures h in g.nodes
    ensures h in Candidates(g, rules, mains) <==>
              && g.nodes[h].className in rules.adCandidateClasses
              && if g.nodes[h].Win32Parent() in mains then g.nodes[h].Text() == ""
                 else g.nodes[h].owner in {None, Some(0)} && !LegacySignatureKind(g, rules, h).NoLegacy?
  {
    FilteredKeeps(TopLevel(g), h => IsCandidate(g, rules, mains, h));
    SortedSeqSorts(set h | h in g.nodes && g.nodes[h].structuralParent.None? && g.nodes[h].pid in g.pids);
  }

  /** A popup host: a top-level window that nobody owns and that is no main window. */
  lemma HostIs(g: WindowGraph, mains: set<Hwnd>, h: Hwnd)
    requires h in TopLevel(g)
    ensures h in g.nodes
    ensures IsPopupHost(g, mains, h) <==> h !in mains && g.nodes[h].owner in {None, Some(0)}
  {
    SortedSeqSorts(set h | h in g.nodes && g.nodes[h].structuralParent.None? && g.nodes[h].pid in g.pids);
  }

  /** A child of a window is looked at unless another window owns it. */
  lemma ChildIs(g: WindowGraph, parent: Hwnd, h: Hwnd)
    requires h in g.nodes && g.nodes[h].structuralParent == Some(parent)
    ensures IsTreeChild(g, parent, h) <==> g.nodes[h].owner in {None, Some(parent)}
  {
  }

  /** A popup advertisement below a host: a window of a popup class at most so many generations below it. */
  lemma PopupMatchIs(g: WindowGraph, rules: Rules, host: Hwnd, hit: Hit)
    ensures hit in PopupMatches(g, rules, host) <==>
              && host in g.nodes && hit.0 in g.nodes && g.nodes[hit.0].className in rules.popupAdClasses
              && 1 <= hit.1 <= rules.popupSearchDepth && Reach(g, host, hit.0, hit.1)
  {
    MatchingHitsKept(g, rules, Descendants(g, host, rules.popupSearchDepth));
    DescendantsArePaths(g, host, rules.popupSearchDepth, hit.0, hit.1);
  }

  /** A chrome widget: its class starts with one of the configured prefixes. */
  lemma WidgetMeans(rules: Rules, className: string)
    ensures IsChromeWidgetClass(rules, className) <==>
              exists i :: 0 <= i < |rules.chromeWidgetPrefixes| && Begins(className, rules.chromeWidgetPrefixes[i])
  {
    var prefixes := rules.chromeWidgetPrefixes;
    if IsChromeWidgetClass(rules, className) {
      var p :| p in prefixes && StartsWith(className, p);
      var i :| 0 <= i < |prefixes| && prefixes[i] == p;
      assert Begins(className, prefixes[i]);
    }
    if i :| 0 <= i < |prefixes| && Begins(className, prefixes[i]) {
      assert StartsWith(className, prefixes[i]);
    }
  }

  predicate Begins(text: string, part: string) { |part| <= |text| && text[..|part|] == part }

  /** Edges that a 32-bit difference can hold. */
  predicate Measurable(r: Rect) {
    I32_MIN <= r.right - r.left <= I32_MAX && I32_MIN <= r.bottom - r.top <= I32_MAX
  }

  /** A bottom banner is of the configured height, takes the configured part of its parent's width, and ends
      within the margin of its parent's bottom edge. */
  lemma BannerGeometry(rules: Rules, child: Rect, parent: Rect)
    requires Measurable(child) && Measurable(parent)
    ensures IsBottomBanner(rules, child, parent) <==>
              && child.top + rules.bannerMinHeightPx <= child.bottom <= child.top + rules.bannerMaxHeightPx
              && parent.left < parent.right
              && (child.right - child.left) as real >= rules.bannerMinWidthRatio * (parent.right - parent.left) as real
              && parent.bottom - rules.bannerBottomMarginPx <= child.bottom <= parent.bottom + rules.bannerBottomMarginPx
  {
    if parent.left < parent.right {
      RatioMeans((child.right - child.left) as real, (parent.right - parent.left) as real, rules.bannerMinWidthRatio);
    }
  }

  lemma RatioMeans(a: real, b: real, ratio: real)
    requires b > 0.0
    ensures a / b >= ratio <==> a >= ratio * b
  {
    assert a == (a / b) * b;
    if a / b >= ratio {
      assert (a / b - ratio) * b >= 0.0;
    } else {
      assert (ratio - a / b) * b > 0.0;
    }
  }

  /** Widths and heights are differences of edges, kept within 32 bits. */
  lemma SizesSaturate(r: Rect)
    ensures I32_MIN <= r.Width() <= I32_MAX && I32_MIN <= r.Height() <= I32_MAX
    ensures Measurable(r) ==> r.Width() == r.right - r.left && r.Height() == r.bottom - r.top
    ensures r.right - r.left > I32_MAX ==> r.Width() == I32_MAX
    ensures r.right - r.left < I32_MIN ==> r.Width() == I32_MIN
    ensures r.bottom - r.top > I32_MAX ==> r.Height() == I32_MAX
    ensures r.bottom - r.top < I32_MIN ==> r.Height() == I32_MIN
  {
  }

  /** The signals a verdict carries name its evidence and nothing else. */
  lemma SignalsTell(g: WindowGraph, settings: Settings, rules: Rules, h: Hwnd, parentRect: Rect, parentText: string, adSignal: bool, host: WindowNode, hit: Hit)
    requires h in g.nodes && settings.aggressiveMode && g.nodes[h].rect.Some?
    ensures var banner := ContextOf(g, settings, rules, h, parentRect).aggressive.signals;
            banner == BLANK.(subtreeAdToken := SubtreeContainsAdToken(g, rules, h),
                             chromeWidgetBottomBanner := IsChromeWidgetClass(rules, g.nodes[h].className) && IsBottomBanner(rules, g.nodes[h].rect.value, parentRect))
    ensures var close := CloseVerdict(g, rules, ContextOf(g, settings, rules, h, parentRect), parentText, adSignal);
            close.Some? ==> close.value.signals == BLANK.(emptyEvaChild := !ClassNameStartsWith(g, h, rules.customScrollPrefix))
    ensures LegacyDecision(LegacySignatureKind(g, rules, h)).signals == BLANK.(legacySignature := LegacySignatureKind(g, rules, h))
    ensures var s := PopupDecision(PopupHostGuard(rules, host), hit.1).signals;
            s == BLANK.(popupDescendantClass := true, popupDirectClass := hit.1 == 1, popupMatchDepth := hit.1, popupHostGuard := PopupHostGuard(rules, host))
  {
  }
}

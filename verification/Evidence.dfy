/** Which windows are matched in one evaluation, and for what: exactly those that show the evidence. */
module Evidence {
  import opened Model
  import opened Ordering
  import opened Search
  import opened Signals
  import opened Evaluate
  import LockStep
  import Verdicts

  // ---------------------------------------------------------------- the evidence, in terms of windows

  predicate ShowsLegacyTitle(g: WindowGraph, rules: Rules, h: Hwnd) { !LegacySignatureKind(g, rules, h).NoLegacy? }

  /** A chrome widget with an advertisement token below it, or one that looks like a bottom banner if the
      rules let its looks decide. */
  predicate ShowsBanner(g: WindowGraph, settings: Settings, rules: Rules, main: Hwnd, h: Hwnd)
    requires main in g.nodes && h in g.nodes
  {
    && settings.aggressiveMode
    && g.nodes[h].rect.Some? && g.nodes[main].rect.Some?
    && IsChromeWidgetClass(rules, g.nodes[h].className)
    && (SubtreeContainsAdToken(g, rules, h)
        || (rules.hideBottomBannerWithoutToken && IsBottomBanner(rules, g.nodes[h].rect.value, g.nodes[main].rect.value)))
  }

  /** Some child of the main window carries an advertisement. */
  predicate MainShowsAd(g: WindowGraph, settings: Settings, rules: Rules, main: Hwnd)
    requires main in g.nodes
  {
    exists i :: 0 <= i < |g.ChildrenOf(main)| && ShowsAd(g, settings, rules, main, g.ChildrenOf(main)[i])
  }

  predicate ShowsAd(g: WindowGraph, settings: Settings, rules: Rules, main: Hwnd, h: Hwnd)
    requires main in g.nodes
  {
    IsTreeChild(g, main, h) && (ShowsLegacyTitle(g, rules, h) || ShowsBanner(g, settings, rules, main, h))
  }

  /** An EVA child without text or scroll area below a main window with text; if the rules ask for it, in
      the company of an advertisement. */
  predicate ShowsEmptyEva(g: WindowGraph, settings: Settings, rules: Rules, main: Hwnd, h: Hwnd)
    requires main in g.nodes && h in g.nodes
  {
    && g.nodes[h].className == rules.evaChildClass && g.nodes[h].Text() == "" && g.nodes[main].Text() != ""
    && !ClassNameStartsWith(g, h, rules.customScrollPrefix)
    && (rules.closeEmptyEvaChildRequiresAdSignal ==> MainShowsAd(g, settings, rules, main))
  }

  // ---------------------------------------------------------------- matched verdicts

  /** A matched verdict of this kind was recorded for the window. */
  predicate Recorded(vs: seq<Verdict>, id: WindowIdentity, action: ActionKind) {
    exists v :: v in vs && IsMatch(v, id, action)
  }

  predicate IsMatch(v: Verdict, id: WindowIdentity, action: ActionKind) {
    v.identity == id && v.decision.Matched() && v.decision.action == action
  }

  predicate Decides(d: AdDecision, action: ActionKind) { d.Matched() && d.action == action }

  lemma OneMore(vs: seq<Verdict>, v: Verdict, id: WindowIdentity, action: ActionKind)
    ensures Recorded(vs + [v], id, action) <==> Recorded(vs, id, action) || IsMatch(v, id, action)
  {
    var all := vs + [v];
    assert v in all && forall w | w in vs :: w in all;
    assert forall w | w in all :: w in vs || w == v;
  }

  lemma OnceRecords(s: Store, id: WindowIdentity, d: AdDecision, ticks: int, track: bool, x: WindowIdentity, action: ActionKind)
    ensures var r := StoreOnce(s, id, d, ticks, track);
            var after := if r.Some? then r.value.store else s;
            Recorded(after.verdicts, x, action) <==> Recorded(s.verdicts, x, action) || (x == id && Decides(d, action))
  {
    OneMore(s.verdicts, Verdict(id, d, StoreUpdate(s, id, d, ticks).confirmed), x, action);
  }

  predicate ChildDecides(g: WindowGraph, settings: Settings, rules: Rules, c: ChildContext, parentText: string, adSignal: bool, action: ActionKind) {
    var close := CloseVerdict(g, rules, c, parentText, adSignal);
    || (close.Some? && Decides(close.value, action))
    || (settings.aggressiveMode && c.childRect.Some? && Decides(c.aggressive, action))
  }

  lemma CloseRecords(a: Pass, g: WindowGraph, rules: Rules, c: ChildContext, parentText: string, adSignal: bool, x: WindowIdentity, action: ActionKind)
    ensures var close := CloseVerdict(g, rules, c, parentText, adSignal);
            Recorded(ApplyClose(a, g, rules, c, parentText, adSignal).store.verdicts, x, action) <==>
              Recorded(a.store.verdicts, x, action) || (x == c.identity && close.Some? && Decides(close.value, action))
  {
    var close := CloseVerdict(g, rules, c, parentText, adSignal);
    if close.Some? {
      var track := !close.value.Matched() && (c.identity in a.store.states || close.value.signals.HasRelevantSignal());
      OnceRecords(a.store, c.identity, close.value, rules.weakSignalConfirmTicks, track, x, action);
    }
  }

  lemma AggressiveRecords(a: Pass, settings: Settings, rules: Rules, c: ChildContext, x: WindowIdentity, action: ActionKind)
    ensures Recorded(ApplyAggressive(a, settings, rules, c).store.verdicts, x, action) <==>
              Recorded(a.store.verdicts, x, action)
              || (x == c.identity && settings.aggressiveMode && c.childRect.Some? && Decides(c.aggressive, action))
  {
    OnceRecords(a.store, c.identity, c.aggressive, rules.weakSignalConfirmTicks, !c.aggressive.Matched() && c.identity in a.store.states, x, action);
  }

  lemma ChildRecords(a: Pass, g: WindowGraph, settings: Settings, rules: Rules, c: ChildContext, parentText: string, parentRect: Rect,
                     adSignal: bool, x: WindowIdentity, action: ActionKind)
    ensures var a' := ApplyChild(a, g, settings, rules, c, parentText, parentRect, adSignal);
            Recorded(a'.store.verdicts, x, action) <==>
              Recorded(a.store.verdicts, x, action) || (x == c.identity && ChildDecides(g, settings, rules, c, parentText, adSignal, action))
  {
    CloseRecords(a, g, rules, c, parentText, adSignal, x, action);
    var a1 := ApplyClose(a, g, rules, c, parentText, adSignal);
    var a2 := ApplyResize(a1, rules, c, parentRect);
    assert a2.store == a1.store;
    AggressiveRecords(a2, settings, rules, c, x, action);
  }

  /** Some context of the list decides this about the window. */
  predicate SomeChildDecides(g: WindowGraph, settings: Settings, rules: Rules, ctxs: seq<ChildContext>, parentText: string, adSignal: bool,
                             x: WindowIdentity, action: ActionKind) {
    exists c :: c in ctxs && c.identity == x && ChildDecides(g, settings, rules, c, parentText, adSignal, action)
  }

  lemma {:induction false} ChildrenRecord(a: Pass, g: WindowGraph, settings: Settings, rules: Rules, ctxs: seq<ChildContext>, parentText: string,
                                          parentRect: Rect, adSignal: bool, x: WindowIdentity, action: ActionKind)
    ensures var a' := ApplyChildren(a, g, settings, rules, ctxs, parentText, parentRect, adSignal);
            Recorded(a'.store.verdicts, x, action) <==>
              Recorded(a.store.verdicts, x, action) || SomeChildDecides(g, settings, rules, ctxs, parentText, adSignal, x, action)
    decreases ctxs
  {
    if ctxs != [] {
      var c, rest := ctxs[0], ctxs[1..];
      ChildRecords(a, g, settings, rules, c, parentText, parentRect, adSignal, x, action);
      ChildrenRecord(ApplyChild(a, g, settings, rules, c, parentText, parentRect, adSignal), g, settings, rules, rest, parentText, parentRect,
                     adSignal, x, action);
      assert c in ctxs && forall d | d in rest :: d in ctxs;
      assert forall d | d in ctxs :: d == c || d in rest;
    }
  }

  /** The main window is looked at. */
  predicate Inspected(g: WindowGraph, m: Hwnd) { m in g.nodes && g.nodes[m].pid in g.pids && g.nodes[m].rect.Some? }

  predicate MainDecides(g: WindowGraph, settings: Settings, rules: Rules, m: Hwnd, x: WindowIdentity, action: ActionKind) {
    && Inspected(g, m)
    && var ctxs := Contexts(g, settings, rules, m, g.ChildrenOf(m), g.nodes[m].rect.value);
       SomeChildDecides(g, settings, rules, ctxs, g.nodes[m].Text(), AnyAdSignal(ctxs), x, action)
  }

  predicate SomeMainDecides(g: WindowGraph, settings: Settings, rules: Rules, mains: seq<Hwnd>, x: WindowIdentity, action: ActionKind) {
    exists i :: 0 <= i < |mains| && MainDecides(g, settings, rules, mains[i], x, action)
  }

  lemma {:induction false} MainsRecord(a: Pass, g: WindowGraph, settings: Settings, rules: Rules, mains: seq<Hwnd>, x: WindowIdentity, action: ActionKind)
    ensures Recorded(ApplyMains(a, g, settings, rules, mains).store.verdicts, x, action) <==>
              Recorded(a.store.verdicts, x, action) || SomeMainDecides(g, settings, rules, mains, x, action)
    decreases mains
  {
    if mains != [] {
      var m, rest := mains[0], mains[1..];
      if Inspected(g, m) {
        var rect := g.nodes[m].rect.value;
        var ctxs := Contexts(g, settings, rules, m, g.ChildrenOf(m), rect);
        ChildrenRecord(a, g, settings, rules, ctxs, g.nodes[m].Text(), rect, AnyAdSignal(ctxs), x, action);
      }
      MainsRecord(ApplyMain(a, g, settings, rules, m), g, settings, rules, rest, x, action);
      assert forall i | 0 <= i < |rest| :: rest[i] == mains[i + 1];
      assert forall i | 0 < i < |mains| :: mains[i] == rest[i - 1];
    }
  }

  predicate CandidateDecides(g: WindowGraph, rules: Rules, h: Hwnd, x: WindowIdentity, action: ActionKind) {
    h in g.nodes && g.nodes[h].pid in g.pids && g.nodes[h].Identity() == x && action.Hide? && ShowsLegacyTitle(g, rules, h)
  }

  predicate SomeCandidateDecides(g: WindowGraph, rules: Rules, candidates: seq<Hwnd>, x: WindowIdentity, action: ActionKind) {
    exists i :: 0 <= i < |candidates| && CandidateDecides(g, rules, candidates[i], x, action)
  }

  lemma {:induction false} CandidatesRecord(a: Pass, g: WindowGraph, rules: Rules, candidates: seq<Hwnd>, x: WindowIdentity, action: ActionKind)
    ensures Recorded(ApplyCandidates(a, g, rules, candidates).store.verdicts, x, action) <==>
              Recorded(a.store.verdicts, x, action) || SomeCandidateDecides(g, rules, candidates, x, action)
    decreases candidates
  {
    if candidates != [] {
      var h, rest := candidates[0], candidates[1..];
      if h in g.nodes && g.nodes[h].pid in g.pids {
        var id, d := g.nodes[h].Identity(), LegacyDecision(LegacySignatureKind(g, rules, h));
        OnceRecords(a.store, id, d, rules.weakSignalConfirmTicks, !d.Matched() && id in a.store.states, x, action);
      }
      CandidatesRecord(ApplyCandidate(a, g, rules, h), g, rules, rest, x, action);
      assert forall i | 0 <= i < |rest| :: rest[i] == candidates[i + 1];
      assert forall i | 0 < i < |candidates| :: candidates[i] == rest[i - 1];
    }
  }

  /** A host the guard allows has this window among its popup matches. */
  predicate HitDecides(g: WindowGraph, rules: Rules, host: WindowNode, hit: Hit, x: WindowIdentity, action: ActionKind) {
    hit.0 in g.nodes && g.nodes[hit.0].Identity() == x && action.DismissPopup? && PopupHostTextMatches(rules, host.Text(), host.TextKnown())
  }

  predicate SomeHitDecides(g: WindowGraph, rules: Rules, host: WindowNode, hits: seq<Hit>, x: WindowIdentity, action: ActionKind) {
    exists i :: 0 <= i < |hits| && HitDecides(g, rules, host, hits[i], x, action)
  }

  lemma {:induction false} MatchesRecord(a: PopupPass, g: WindowGraph, rules: Rules, host: WindowNode, hits: seq<Hit>, x: WindowIdentity, action: ActionKind)
    ensures Recorded(ApplyMatches(a, g, rules, host, hits).store.verdicts, x, action) <==>
              Recorded(a.store.verdicts, x, action) || SomeHitDecides(g, rules, host, hits, x, action)
    decreases hits
  {
    if hits != [] {
      var hit, rest := hits[0], hits[1..];
      var d := PopupDecision(PopupHostGuard(rules, host), hit.1);
      if hit.0 in g.nodes {
        var id := g.nodes[hit.0].Identity();
        OneMore(a.store.verdicts, Verdict(id, d, StoreUpdate(a.store, id, d, rules.weakSignalConfirmTicks).confirmed), x, action);
      }
      MatchesRecord(ApplyMatch(a, g, rules, host, hit), g, rules, host, rest, x, action);
      assert forall i | 0 <= i < |rest| :: rest[i] == hits[i + 1];
      assert forall i | 0 < i < |hits| :: hits[i] == rest[i - 1];
    }
  }

  predicate HostDecides(g: WindowGraph, rules: Rules, mains: set<Hwnd>, host: Hwnd, x: WindowIdentity, action: ActionKind) {
    IsPopupHost(g, mains, host) && SomeHitDecides(g, rules, g.nodes[host], PopupMatches(g, rules, host), x, action)
  }

  predicate SomeHostDecides(g: WindowGraph, rules: Rules, mains: set<Hwnd>, hosts: seq<Hwnd>, x: WindowIdentity, action: ActionKind) {
    exists i :: 0 <= i < |hosts| && HostDecides(g, rules, mains, hosts[i], x, action)
  }

  lemma {:induction false} PopupsRecord(a: PopupPass, g: WindowGraph, rules: Rules, mains: set<Hwnd>, hosts: seq<Hwnd>, x: WindowIdentity, action: ActionKind)
    ensures Recorded(ApplyPopups(a, g, rules, mains, hosts).store.verdicts, x, action) <==>
              Recorded(a.store.verdicts, x, action) || SomeHostDecides(g, rules, mains, hosts, x, action)
    decreases hosts
  {
    if hosts != [] {
      var h, rest := hosts[0], hosts[1..];
      if IsPopupHost(g, mains, h) {
        var hits := PopupMatches(g, rules, h);
        MatchesRecord(a, g, rules, g.nodes[h], hits, x, action);
        PopupsRecord(ApplyMatches(a, g, rules, g.nodes[h], hits), g, rules, mains, rest, x, action);
      } else {
        PopupsRecord(a, g, rules, mains, rest, x, action);
      }
      assert forall i | 0 <= i < |rest| :: rest[i] == hosts[i + 1];
      assert forall i | 0 < i < |hosts| :: hosts[i] == rest[i - 1];
    }
  }

  // ---------------------------------------------------------------- what a decision means

  lemma {:induction false} ContextsAre(g: WindowGraph, settings: Settings, rules: Rules, m: Hwnd, children: seq<Hwnd>, rect: Rect, c: ChildContext)
    ensures c in Contexts(g, settings, rules, m, children, rect) <==>
              exists i :: 0 <= i < |children| && IsTreeChild(g, m, children[i]) && c == ContextOf(g, settings, rules, children[i], rect)
    decreases children
  {
    if children != [] {
      var rest := children[1..];
      ContextsAre(g, settings, rules, m, rest, rect, c);
      assert forall i | 0 <= i < |rest| :: rest[i] == children[i + 1];
      assert forall i | 0 < i < |children| :: children[i] == rest[i - 1];
    }
  }

  lemma BannerMeans(g: WindowGraph, settings: Settings, rules: Rules, m: Hwnd, h: Hwnd)
    requires Inspected(g, m) && h in g.nodes
    ensures var c := ContextOf(g, settings, rules, h, g.nodes[m].rect.value);
            && (c.aggressive.Matched() <==> ShowsBanner(g, settings, rules, m, h))
            && (c.aggressive.Matched() ==> c.aggressive.action.Hide?)
            && (c.aggressive.Matched() ==> c.childRect.Some?)
  {
  }

  lemma AdSignalMeans(g: WindowGraph, settings: Settings, rules: Rules, m: Hwnd)
    requires Inspected(g, m) && rules.closeEmptyEvaChildRequiresAdSignal
    ensures AnyAdSignal(Contexts(g, settings, rules, m, g.ChildrenOf(m), g.nodes[m].rect.value)) <==> MainShowsAd(g, settings, rules, m)
  {
    var children, rect := g.ChildrenOf(m), g.nodes[m].rect.value;
    var ctxs := Contexts(g, settings, rules, m, children, rect);
    if AnyAdSignal(ctxs) {
      var c :| c in ctxs && c.adSignal;
      ContextsAre(g, settings, rules, m, children, rect, c);
      var i :| 0 <= i < |children| && IsTreeChild(g, m, children[i]) && c == ContextOf(g, settings, rules, children[i], rect);
      BannerMeans(g, settings, rules, m, children[i]);
      assert ShowsAd(g, settings, rules, m, children[i]);
    }
    if MainShowsAd(g, settings, rules, m) {
      var i :| 0 <= i < |children| && ShowsAd(g, settings, rules, m, children[i]);
      var c := ContextOf(g, settings, rules, children[i], rect);
      BannerMeans(g, settings, rules, m, children[i]);
      ContextsAre(g, settings, rules, m, children, rect, c);
      assert c.adSignal;
    }
  }

  /** What is decided about one child of a main window, in terms of the windows. */
  predicate ChildShows(g: WindowGraph, settings: Settings, rules: Rules, m: Hwnd, h: Hwnd, action: ActionKind)
    requires m in g.nodes
  {
    IsTreeChild(g, m, h) &&
      match action
      case Close => ShowsEmptyEva(g, settings, rules, m, h)
      case Hide => ShowsBanner(g, settings, rules, m, h)
      case _ => false
  }

  lemma ChildDecidesMeans(g: WindowGraph, settings: Settings, rules: Rules, m: Hwnd, h: Hwnd, action: ActionKind)
    requires Inspected(g, m) && IsTreeChild(g, m, h)
    ensures var rect := g.nodes[m].rect.value;
            var ctxs := Contexts(g, settings, rules, m, g.ChildrenOf(m), rect);
            var c := ContextOf(g, settings, rules, h, rect);
            ChildDecides(g, settings, rules, c, g.nodes[m].Text(), AnyAdSignal(ctxs), action) <==> ChildShows(g, settings, rules, m, h, action)
  {
    BannerMeans(g, settings, rules, m, h);
    if rules.closeEmptyEvaChildRequiresAdSignal {
      AdSignalMeans(g, settings, rules, m);
    }
  }

  /** `h` is a child of an inspected main window and shows what the action is taken for. */
  predicate MainChildShows(g: WindowGraph, settings: Settings, rules: Rules, m: Hwnd, h: Hwnd, action: ActionKind) {
    Inspected(g, m) && InList(g.ChildrenOf(m), h) && ChildShows(g, settings, rules, m, h, action)
  }

  predicate InList(hs: seq<Hwnd>, h: Hwnd) { exists i :: 0 <= i < |hs| && hs[i] == h }

  lemma MainDecidesMeans(g: WindowGraph, settings: Settings, rules: Rules, m: Hwnd, h: Hwnd, action: ActionKind)
    requires g.WellKeyed() && h in g.nodes
    ensures MainDecides(g, settings, rules, m, g.nodes[h].Identity(), action) <==> MainChildShows(g, settings, rules, m, h, action)
  {
    if Inspected(g, m) {
      var children, rect, x := g.ChildrenOf(m), g.nodes[m].rect.value, g.nodes[h].Identity();
      var ctxs := Contexts(g, settings, rules, m, children, rect);
      var text, signal := g.nodes[m].Text(), AnyAdSignal(ctxs);
      if SomeChildDecides(g, settings, rules, ctxs, text, signal, x, action) {
        var c :| c in ctxs && c.identity == x && ChildDecides(g, settings, rules, c, text, signal, action);
        ContextsAre(g, settings, rules, m, children, rect, c);
        var i :| 0 <= i < |children| && IsTreeChild(g, m, children[i]) && c == ContextOf(g, settings, rules, children[i], rect);
        assert children[i] == h;
        ChildDecidesMeans(g, settings, rules, m, h, action);
      }
      if MainChildShows(g, settings, rules, m, h, action) {
        var i :| 0 <= i < |children| && children[i] == h;
        var c := ContextOf(g, settings, rules, h, rect);
        ContextsAre(g, settings, rules, m, children, rect, c);
        ChildDecidesMeans(g, settings, rules, m, h, action);
      }
    }
  }

  // ---------------------------------------------------------------- the result

  /** What a matched verdict stands for. */
  predicate Shows(g: WindowGraph, settings: Settings, rules: Rules, h: Hwnd, action: ActionKind) {
    var mains := ConfirmedMains(g, rules);
    || (exists i :: 0 <= i < |mains| && MainChildShows(g, settings, rules, mains[i], h, action))
    || (InList(Candidates(g, rules, Members(mains)), h) && h in g.nodes && g.nodes[h].pid in g.pids && action.Hide? && ShowsLegacyTitle(g, rules, h))
    || (h in g.nodes && SomeHostDecides(g, rules, Members(mains), TopLevel(g), g.nodes[h].Identity(), action))
  }

  lemma VerdictsDecompose(g: WindowGraph, settings: Settings, rules: Rules, states: States, x: WindowIdentity, action: ActionKind)
    ensures var mains := ConfirmedMains(g, rules);
            Recorded(Apply(g, settings, rules, states).store.verdicts, x, action) <==>
              || SomeMainDecides(g, settings, rules, mains, x, action)
              || SomeCandidateDecides(g, rules, Candidates(g, rules, Members(mains)), x, action)
              || SomeHostDecides(g, rules, Members(mains), TopLevel(g), x, action)
  {
    var mains := ConfirmedMains(g, rules);
    var candidates, start := Candidates(g, rules, Members(mains)), Pass(Store(states, {}, []), EMPTY_LOG);
    MainsRecord(start, g, settings, rules, mains, x, action);
    var a1 := ApplyMains(start, g, settings, rules, mains);
    CandidatesRecord(a1, g, rules, candidates, x, action);
    var a2 := ApplyCandidates(a1, g, rules, candidates);
    PopupsRecord(PopupPass(a2.store, a2.log, {}), g, rules, Members(mains), TopLevel(g), x, action);
  }

  /** In one evaluation a window is matched for an action if and only if it shows the evidence for it:
      an empty EVA child to be closed, a banner child or a legacy candidate to be hidden, a popup
      advertisement below an allowed host to be dismissed. No evidence is overlooked and none invented. */
  lemma MatchedExactlyOnEvidence(g: WindowGraph, settings: Settings, rules: Rules, states: States, h: Hwnd, action: ActionKind)
    requires g.WellKeyed() && h in g.nodes
    ensures Recorded(Apply(g, settings, rules, states).store.verdicts, g.nodes[h].Identity(), action) <==> Shows(g, settings, rules, h, action)
  {
    var mains := ConfirmedMains(g, rules);
    VerdictsDecompose(g, settings, rules, states, g.nodes[h].Identity(), action);
    forall i | 0 <= i < |mains|
      ensures MainDecides(g, settings, rules, mains[i], g.nodes[h].Identity(), action) <==> MainChildShows(g, settings, rules, mains[i], h, action)
    {
      MainDecidesMeans(g, settings, rules, mains[i], h, action);
    }
    CandidateMeans(g, rules, Candidates(g, rules, Members(mains)), h, action);
  }

  lemma CandidateMeans(g: WindowGraph, rules: Rules, candidates: seq<Hwnd>, h: Hwnd, action: ActionKind)
    requires g.WellKeyed() && h in g.nodes
    ensures SomeCandidateDecides(g, rules, candidates, g.nodes[h].Identity(), action) <==>
              InList(candidates, h) && g.nodes[h].pid in g.pids && action.Hide? && ShowsLegacyTitle(g, rules, h)
  {
    if InList(candidates, h) && CandidateDecides(g, rules, h, g.nodes[h].Identity(), action) {
      var i :| 0 <= i < |candidates| && candidates[i] == h;
      assert CandidateDecides(g, rules, candidates[i], g.nodes[h].Identity(), action);
    }
  }

  /** Verdicts are about windows of the graph. */
  lemma MatchedIsNode(g: WindowGraph, settings: Settings, rules: Rules, states: States, x: WindowIdentity, action: ActionKind)
    requires g.WellKeyed() && Recorded(Apply(g, settings, rules, states).store.verdicts, x, action)
    ensures x.hwnd in g.nodes && g.nodes[x.hwnd].Identity() == x
  {
    var mains := ConfirmedMains(g, rules);
    VerdictsDecompose(g, settings, rules, states, x, action);
    if SomeMainDecides(g, settings, rules, mains, x, action) {
      var i :| 0 <= i < |mains| && MainDecides(g, settings, rules, mains[i], x, action);
      var m := mains[i];
      var rect := g.nodes[m].rect.value;
      var ctxs := Contexts(g, settings, rules, m, g.ChildrenOf(m), rect);
      var c :| c in ctxs && c.identity == x;
      ContextsAre(g, settings, rules, m, g.ChildrenOf(m), rect, c);
      var j :| 0 <= j < |g.ChildrenOf(m)| && IsTreeChild(g, m, g.ChildrenOf(m)[j]) && c == ContextOf(g, settings, rules, g.ChildrenOf(m)[j], rect);
      NodeIdentity(g, g.ChildrenOf(m)[j]);
    } else if SomeCandidateDecides(g, rules, Candidates(g, rules, Members(mains)), x, action) {
      var candidates := Candidates(g, rules, Members(mains));
      var i :| 0 <= i < |candidates| && CandidateDecides(g, rules, candidates[i], x, action);
      NodeIdentity(g, candidates[i]);
    } else {
      var hosts := TopLevel(g);
      var i :| 0 <= i < |hosts| && HostDecides(g, rules, Members(mains), hosts[i], x, action);
      var hits := PopupMatches(g, rules, hosts[i]);
      var j :| 0 <= j < |hits| && HitDecides(g, rules, g.nodes[hosts[i]], hits[j], x, action);
      NodeIdentity(g, hits[j].0);
    }
  }

  lemma NodeIdentity(g: WindowGraph, h: Hwnd)
    requires g.WellKeyed() && h in g.nodes
    ensures g.nodes[h].Identity().hwnd == h
  {
  }

  /** A confirmed verdict is a match, and rests on what the window shows. */
  lemma ConfirmedShows(g: WindowGraph, settings: Settings, rules: Rules, states: States, h: Hwnd, action: ActionKind)
    requires g.WellKeyed() && Verdicts.Confirmed(Apply(g, settings, rules, states).store.verdicts, h, action)
    ensures Shows(g, settings, rules, h, action)
  {
    var vs := Apply(g, settings, rules, states).store.verdicts;
    var v :| v in vs && v.confirmed && v.identity.hwnd == h && v.decision.action == action;
    var k: nat :| k < |vs| && vs[k] == v;
    LockStep.EvaluationKeepsStep(g, settings, rules, states);
    assert LockStep.ConfirmedAt(states, vs, k, rules.weakSignalConfirmTicks);
    assert IsMatch(v, v.identity, action);
    MatchedIsNode(g, settings, rules, states, v.identity, action);
    MatchedExactlyOnEvidence(g, settings, rules, states, h, action);
  }

  /** The plan rests on evidence: whatever is closed or hidden and is not part of an allowed popup shows
      now what it is closed or hidden for. */
  lemma PlanRestsOnEvidence(g: WindowGraph, settings: Settings, rules: Rules, states: States, h: Hwnd)
    requires Forest(g)
    ensures var plan := PlanOf(Apply(g, settings, rules, states).log);
            !Verdicts.PopupPart(g, rules, Members(ConfirmedMains(g, rules)), h) ==>
              && (h in plan.close ==> Shows(g, settings, rules, h, Close))
              && (h in plan.hide ==> Shows(g, settings, rules, h, Hide))
  {
    var a := Apply(g, settings, rules, states);
    var done := Verdicts.ApplyFits(g, settings, rules, states);
    SortedSeqSorts(Members(a.log.hides));
    SortedSeqSorts(Members(a.log.closes));
    forall action | Verdicts.Confirmed(a.store.verdicts, h, action) ensures Shows(g, settings, rules, h, action) {
      ConfirmedShows(g, settings, rules, states, h, action);
    }
  }
}

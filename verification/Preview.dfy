/** The preview tells the truth: although it tracks misses differently from the apply pass and also
    records popup hosts, the actions it reports are exactly the actions planned. */
module Preview {
  import opened Model
  import opened Ordering
  import opened Search
  import opened Signals
  import opened Evaluate

  function Streak(s: Store, id: WindowIdentity): int {
    if id in s.states then s.states[id].matchStreak else 0
  }

  /** The preview may know more windows and have judged more of them, but never with a streak. */
  ghost predicate Related(p: Store, a: Store) {
    && a.states.Keys <= p.states.Keys
    && a.touched <= p.touched <= p.states.Keys
    && (forall id :: Streak(p, id) == Streak(a, id))
    && (forall id | id in p.touched && id !in a.touched :: Streak(a, id) == 0)
  }

  predicate Visible(g: WindowGraph, h: Hwnd) { h in g.nodes && g.nodes[h].visible }

  predicate Reported(p: Payload, kind: ActionKind) { p.action == PayloadAction(false, kind) }

  /** The windows the preview says are hidden or dismissed. */
  function HidesOf(payloads: seq<Payload>): set<Hwnd> {
    set p | p in payloads && (Reported(p, Hide) || Reported(p, DismissPopup)) :: p.identity.hwnd
  }

  /** The windows the preview says are closed, and the dismissed ones that are visible. */
  function ClosesOf(g: WindowGraph, payloads: seq<Payload>): set<Hwnd> {
    set p | p in payloads && (Reported(p, Close) || (Reported(p, DismissPopup) && Visible(g, p.identity.hwnd))) :: p.identity.hwnd
  }

  predicate Agree(g: WindowGraph, payloads: seq<Payload>, log: Log) {
    Members(log.hides) == HidesOf(payloads) && Members(log.closes) == ClosesOf(g, payloads)
  }

  lemma AddPayload(g: WindowGraph, payloads: seq<Payload>, p: Payload)
    ensures HidesOf(payloads + [p]) == HidesOf(payloads) + if Reported(p, Hide) || Reported(p, DismissPopup) then {p.identity.hwnd} else {}
    ensures ClosesOf(g, payloads + [p]) == ClosesOf(g, payloads) +
              if Reported(p, Close) || (Reported(p, DismissPopup) && Visible(g, p.identity.hwnd)) then {p.identity.hwnd} else {}
  {
  }

  /** A decision is either a match with an action or no action at all. */
  predicate Proper(d: AdDecision) { d.Matched() || d.action.NoAction? }

  /** One verdict in both stores: same confirmation, and the stores stay related. */
  lemma StepRelated(p: Preview, a: Store, id: WindowIdentity, decision: AdDecision, rules: Rules, track: bool)
    requires Related(p.store, a)
    requires track ==> !decision.Matched() && (id in a.states || decision.signals.HasRelevantSignal())
    requires !decision.Matched() && id in a.states ==> track
    ensures var p' := InspectOne(p, id, decision, rules);
            var r := StoreOnce(a, id, decision, rules.weakSignalConfirmTicks, track);
            && Related(p'.store, if r.Some? then r.value.store else a)
            && (decision.Matched() ==>
                  && r.Some?
                  && |p'.payloads| == |p.payloads| + 1 && p'.payloads[..|p.payloads|] == p.payloads
                  && p'.payloads[|p.payloads|].identity == id
                  && p'.payloads[|p.payloads|].action == PayloadAction(!r.value.confirmed, decision.action))
  {
    var p' := InspectOne(p, id, decision, rules);
    var r := StoreOnce(a, id, decision, rules.weakSignalConfirmTicks, track);
    var a' := if r.Some? then r.value.store else a;
    assert Streak(p.store, id) == Streak(a, id);
    assert id in p.store.touched && id !in a.touched ==> Streak(a, id) == 0;
    forall x ensures Streak(p'.store, x) == Streak(a', x) {
      assert Streak(p.store, x) == Streak(a, x);
    }
    forall x | x in p'.store.touched && x !in a'.touched ensures Streak(a', x) == 0 {
      assert x != id ==> x in p.store.touched && x !in a.touched && Streak(a', x) == Streak(a, x);
    }
  }

  /** One verdict on both sides, with the effect it has on the plan when it is confirmed. */
  lemma StepAgrees(g: WindowGraph, p: Preview, a: Store, log: Log, log': Log, id: WindowIdentity, decision: AdDecision, rules: Rules, track: bool)
    requires Related(p.store, a) && Agree(g, p.payloads, log) && Proper(decision) && !decision.action.DismissPopup?
    requires track ==> !decision.Matched() && (id in a.states || decision.signals.HasRelevantSignal())
    requires !decision.Matched() && id in a.states ==> track
    requires var r := StoreOnce(a, id, decision, rules.weakSignalConfirmTicks, track);
             var done := r.Some? && r.value.confirmed;
             && Members(log'.hides) == Members(log.hides) + (if done && decision.action.Hide? then {id.hwnd} else {})
             && Members(log'.closes) == Members(log.closes) + (if done && decision.action.Close? then {id.hwnd} else {})
    ensures var p' := InspectOne(p, id, decision, rules);
            var r := StoreOnce(a, id, decision, rules.weakSignalConfirmTicks, track);
            Related(p'.store, if r.Some? then r.value.store else a) && Agree(g, p'.payloads, log')
  {
    StepRelated(p, a, id, decision, rules, track);
    var p' := InspectOne(p, id, decision, rules);
    if p' != p {
      var last := p'.payloads[|p.payloads|];
      assert p'.payloads == p.payloads + [last];
      AddPayload(g, p.payloads, last);
    }
  }

  lemma AddMember(hs: seq<Hwnd>, h: Hwnd)
    ensures Members(hs + [h]) == Members(hs) + {h}
  {
  }

  ghost predicate InStep(g: WindowGraph, p: Preview, a: Pass) {
    Related(p.store, a.store) && Agree(g, p.payloads, a.log)
  }

  predicate ContextFits(g: WindowGraph, rules: Rules, c: ChildContext) {
    c.identity.hwnd == c.child && Proper(c.aggressive) && (c.aggressive.Matched() ==> c.aggressive.action.Hide?)
  }

  lemma CloseAgrees(g: WindowGraph, rules: Rules, p: Preview, a: Pass, c: ChildContext, parentText: string, adSignal: bool)
    requires InStep(g, p, a) && ContextFits(g, rules, c)
    ensures var verdict := CloseVerdict(g, rules, c, parentText, adSignal);
            InStep(g, if verdict.Some? then InspectOne(p, c.identity, verdict.value, rules) else p,
                   ApplyClose(a, g, rules, c, parentText, adSignal))
  {
    var verdict := CloseVerdict(g, rules, c, parentText, adSignal);
    if verdict.Some? {
      var d := verdict.value;
      var track := !d.Matched() && (c.identity in a.store.states || d.signals.HasRelevantSignal());
      AddMember(a.log.closes, c.child);
      var a' := ApplyClose(a, g, rules, c, parentText, adSignal);
      StepAgrees(g, p, a.store, a.log, a'.log, c.identity, d, rules, track);
    }
  }

  lemma AggressiveAgrees(g: WindowGraph, settings: Settings, rules: Rules, p: Preview, a: Pass, c: ChildContext)
    requires InStep(g, p, a) && ContextFits(g, rules, c)
    ensures InStep(g, if !settings.aggressiveMode || c.childRect.None? then p else InspectOne(p, c.identity, c.aggressive, rules),
                   ApplyAggressive(a, settings, rules, c))
  {
    if settings.aggressiveMode && c.childRect.Some? {
      var track := !c.aggressive.Matched() && c.identity in a.store.states;
      AddMember(a.log.hides, c.child);
      StepAgrees(g, p, a.store, a.log, ApplyAggressive(a, settings, rules, c).log, c.identity, c.aggressive, rules, track);
    }
  }

  lemma {:induction false} ChildrenAgree(g: WindowGraph, settings: Settings, rules: Rules, p: Preview, a: Pass,
                                         ctxs: seq<ChildContext>, parentText: string, parentRect: Rect, adSignal: bool)
    requires InStep(g, p, a) && forall c | c in ctxs :: ContextFits(g, rules, c)
    ensures InStep(g, InspectChildren(p, g, settings, rules, ctxs, parentText, adSignal),
                   ApplyChildren(a, g, settings, rules, ctxs, parentText, parentRect, adSignal))
    decreases ctxs
  {
    if ctxs != [] {
      var c := ctxs[0];
      CloseAgrees(g, rules, p, a, c, parentText, adSignal);
      var verdict := CloseVerdict(g, rules, c, parentText, adSignal);
      var p1 := if verdict.Some? then InspectOne(p, c.identity, verdict.value, rules) else p;
      var a2 := ApplyResize(ApplyClose(a, g, rules, c, parentText, adSignal), rules, c, parentRect);
      AggressiveAgrees(g, settings, rules, p1, a2, c);
      ChildrenAgree(g, settings, rules, InspectChild(p, g, settings, rules, c, parentText, adSignal),
                    ApplyChild(a, g, settings, rules, c, parentText, parentRect, adSignal),
                    ctxs[1..], parentText, parentRect, adSignal);
    }
  }

  lemma {:induction false} ContextsFit(g: WindowGraph, settings: Settings, rules: Rules, wnd: Hwnd, children: seq<Hwnd>, rect: Rect)
    requires g.WellKeyed()
    ensures forall c | c in Contexts(g, settings, rules, wnd, children, rect) :: ContextFits(g, rules, c)
  {
    if children != [] {
      ContextsFit(g, settings, rules, wnd, children[1..], rect);
    }
  }

  lemma {:induction false} MainsAgree(g: WindowGraph, settings: Settings, rules: Rules, p: Preview, a: Pass, mains: seq<Hwnd>)
    requires InStep(g, p, a) && g.WellKeyed()
    requires forall h | h in mains && h in g.nodes :: g.nodes[h].pid in g.pids
    ensures InStep(g, InspectMains(p, g, settings, rules, mains), ApplyMains(a, g, settings, rules, mains))
    decreases mains
  {
    if mains != [] {
      var wnd := mains[0];
      if wnd in g.nodes && g.nodes[wnd].rect.Some? {
        var rect := g.nodes[wnd].rect.value;
        ContextsFit(g, settings, rules, wnd, g.ChildrenOf(wnd), rect);
        var ctxs := Contexts(g, settings, rules, wnd, g.ChildrenOf(wnd), rect);
        ChildrenAgree(g, settings, rules, p, a, ctxs, g.nodes[wnd].Text(), rect, AnyAdSignal(ctxs));
      }
      MainsAgree(g, settings, rules, InspectMain(p, g, settings, rules, wnd), ApplyMain(a, g, settings, rules, wnd), mains[1..]);
    }
  }

  lemma CandidateAgrees(g: WindowGraph, rules: Rules, p: Preview, a: Pass, wnd: Hwnd)
    requires InStep(g, p, a) && g.WellKeyed() && wnd in g.nodes && g.nodes[wnd].pid in g.pids
    ensures InStep(g, InspectOne(p, g.nodes[wnd].Identity(), LegacyDecision(LegacySignatureKind(g, rules, wnd)), rules),
                   ApplyCandidate(a, g, rules, wnd))
  {
    var id := g.nodes[wnd].Identity();
    var d := LegacyDecision(LegacySignatureKind(g, rules, wnd));
    AddMember(a.log.hides, wnd);
    StepAgrees(g, p, a.store, a.log, ApplyCandidate(a, g, rules, wnd).log, id, d, rules, !d.Matched() && id in a.store.states);
  }

  lemma {:induction false} CandidatesAgree(g: WindowGraph, rules: Rules, p: Preview, a: Pass, candidates: seq<Hwnd>)
    requires InStep(g, p, a) && g.WellKeyed()
    requires forall h | h in candidates && h in g.nodes :: g.nodes[h].pid in g.pids
    ensures InStep(g, InspectCandidates(p, g, rules, candidates), ApplyCandidates(a, g, rules, candidates))
    decreases candidates
  {
    if candidates != [] {
      var wnd := candidates[0];
      if wnd in g.nodes {
        CandidateAgrees(g, rules, p, a, wnd);
      }
      var p1 := if wnd in g.nodes
                then InspectOne(p, g.nodes[wnd].Identity(), LegacyDecision(LegacySignatureKind(g, rules, wnd)), rules) else p;
      CandidatesAgree(g, rules, p1, ApplyCandidate(a, g, rules, wnd), candidates[1..]);
    }
  }

  // ---------------------------------------------------------------- popups

  /** A window already dealt with is already planned, so skipping it changes nothing. */
  predicate HandledIsPlanned(g: WindowGraph, a: PopupPass) {
    forall h | h in a.handled :: h in a.log.hides && (Visible(g, h) ==> h in a.log.closes)
  }

  predicate PopupInStep(g: WindowGraph, p: Preview, a: PopupPass) {
    Agree(g, p.payloads, a.log) && HandledIsPlanned(g, a)
  }

  lemma DismissAgrees(g: WindowGraph, rules: Rules, p: Preview, a: PopupPass, node: WindowNode, decision: AdDecision)
    requires PopupInStep(g, p, a) && g.WellKeyed() && node.hwnd in g.nodes && g.nodes[node.hwnd] == node
    requires decision.strength.Strong? && decision.action.DismissPopup?
    ensures PopupInStep(g, InspectPopup(p, node.Identity(), decision, rules), RetainOnce(a, node.hwnd, node.visible))
  {
    var r := StoreUpdate(p.store, node.Identity(), decision, rules.weakSignalConfirmTicks);
    var payload := PayloadOf(node.Identity(), decision, r);
    assert Reported(payload, DismissPopup);
    AddPayload(g, p.payloads, payload);
    AddMember(a.log.hides, node.hwnd);
    AddMember(a.log.closes, node.hwnd);
    assert Members(a.log.hides) + {node.hwnd} == Members(RetainOnce(a, node.hwnd, node.visible).log.hides);
  }

  lemma MatchAgrees(g: WindowGraph, rules: Rules, p: Preview, a: PopupPass, host: WindowNode, hit: Hit)
    requires PopupInStep(g, p, a) && g.WellKeyed() && host.hwnd in g.nodes && g.nodes[host.hwnd] == host && hit.0 in g.nodes
    ensures PopupInStep(g, InspectMatch(p, g, rules, host, hit), ApplyMatch(a, g, rules, host, hit))
  {
    var guard := PopupHostGuard(rules, host);
    var d := PopupDecision(guard, hit.1);
    var node := g.nodes[hit.0];
    assert node.hwnd == hit.0;
    var a1 := a.(store := StoreUpdate(a.store, node.Identity(), d, rules.weakSignalConfirmTicks).store);
    if guard.Allow? {
      DismissAgrees(g, rules, p, a1, host, d);
      DismissAgrees(g, rules, InspectPopup(p, host.Identity(), d, rules), RetainOnce(a1, host.hwnd, host.visible), node, d);
    } else {
      var r := StoreUpdate(p.store, node.Identity(), d, rules.weakSignalConfirmTicks);
      AddPayload(g, p.payloads, PayloadOf(node.Identity(), d, r));
    }
  }

  lemma {:induction false} MatchesAgree(g: WindowGraph, rules: Rules, p: Preview, a: PopupPass, host: WindowNode, hits: seq<Hit>)
    requires PopupInStep(g, p, a) && g.WellKeyed() && host.hwnd in g.nodes && g.nodes[host.hwnd] == host
    requires forall hit | hit in hits :: hit.0 in g.nodes
    ensures PopupInStep(g, InspectMatches(p, g, rules, host, hits), ApplyMatches(a, g, rules, host, hits))
    decreases hits
  {
    if hits != [] {
      MatchAgrees(g, rules, p, a, host, hits[0]);
      MatchesAgree(g, rules, InspectMatch(p, g, rules, host, hits[0]), ApplyMatch(a, g, rules, host, hits[0]), host, hits[1..]);
    }
  }

  lemma {:induction false} PopupsAgree(g: WindowGraph, rules: Rules, p: Preview, a: PopupPass, mains: set<Hwnd>, hosts: seq<Hwnd>)
    requires PopupInStep(g, p, a) && g.WellKeyed()
    ensures PopupInStep(g, InspectPopups(p, g, rules, mains, hosts), ApplyPopups(a, g, rules, mains, hosts))
    decreases hosts
  {
    if hosts != [] {
      var h := hosts[0];
      MatchingHitsKept(g, rules, Descendants(g, h, rules.popupSearchDepth));
      if IsPopupHost(g, mains, h) {
        var hits := PopupMatches(g, rules, h);
        MatchesAgree(g, rules, p, a, g.nodes[h], hits);
        PopupsAgree(g, rules, InspectMatches(p, g, rules, g.nodes[h], hits), ApplyMatches(a, g, rules, g.nodes[h], hits), mains, hosts[1..]);
      } else {
        PopupsAgree(g, rules, p, a, mains, hosts[1..]);
      }
    }
  }

  lemma TopLevelWatched(g: WindowGraph)
    ensures forall h | h in TopLevel(g) :: h in g.nodes && g.nodes[h].pid in g.pids && g.nodes[h].structuralParent.None?
  {
    SortedSeqSorts(set h | h in g.nodes && g.nodes[h].structuralParent.None? && g.nodes[h].pid in g.pids);
  }

  /** On any graph, rules, settings and states: the windows planned to be hidden are those the preview
      reports as hidden or dismissed, and the windows planned to be closed are those it reports as
      closed plus the visible ones it reports as dismissed. */
  lemma PreviewAgreesWithApply(g: WindowGraph, settings: Settings, rules: Rules, states: States)
    requires g.WellKeyed()
    ensures var plan := PlanOf(Apply(g, settings, rules, states).log);
            var payloads := Inspect(g, settings, rules, states).payloads;
            && Members(plan.hide) == HidesOf(payloads)
            && Members(plan.close) == ClosesOf(g, payloads)
            && Ascending(plan.hide) && Ascending(plan.close)
  {
    TopLevelWatched(g);
    var mains := ConfirmedMains(g, rules);
    FilteredKeeps(TopLevel(g), h => IsConfirmedMain(g, rules, h));
    var candidates := Candidates(g, rules, Members(mains));
    FilteredKeeps(TopLevel(g), h => IsCandidate(g, rules, Members(mains), h));
    var p0, a0 := Preview(Store(states, {}, []), []), Pass(Store(states, {}, []), EMPTY_LOG);
    MainsAgree(g, settings, rules, p0, a0, mains);
    var p1, a1 := InspectMains(p0, g, settings, rules, mains), ApplyMains(a0, g, settings, rules, mains);
    CandidatesAgree(g, rules, p1, a1, candidates);
    var p2, a2 := InspectCandidates(p1, g, rules, candidates), ApplyCandidates(a1, g, rules, candidates);
    PopupsAgree(g, rules, p2, PopupPass(a2.store, a2.log, {}), Members(mains), TopLevel(g));
    var log := Apply(g, settings, rules, states).log;
    SortedSeqSorts(Members(log.hides));
    SortedSeqSorts(Members(log.closes));
  }
}

/** Whom the diagnostic preview lists: exactly those it has something to say about. */
module Listings {
  import opened Model
  import opened Ordering
  import opened Search
  import opened Signals
  import opened Evaluate
  import opened Evidence

  /** Something was found about the window, whether or not it amounts to a match. */
  predicate Flagged(s: AdSignals) { s.(popupMatchDepth := 0, popupHostGuard := Na) != BLANK }

  lemma RelevantMeansFlagged(s: AdSignals)
    ensures s.HasRelevantSignal() <==> Flagged(s)
  {
  }

  predicate Listed(payloads: seq<Payload>, id: WindowIdentity) { exists k :: 0 <= k < |payloads| && payloads[k].identity == id }

  /** The preview had a reason to list this: a match, a signal, or that the window was known or listed before. */
  predicate HasReason(before: States, payloads: seq<Payload>, k: nat)
    requires k < |payloads|
  {
    || !payloads[k].strength.NoStrength? || Flagged(payloads[k].signals)
    || payloads[k].identity in before || Listed(payloads[..k], payloads[k].identity)
  }

  ghost predicate InOrder(before: States, p: Preview) {
    && (forall k: nat | k < |p.payloads| :: HasReason(before, p.payloads, k))
    && (forall id | id in p.store.touched :: Listed(p.payloads, id))
    && (forall id | id in p.store.states :: id in before || Listed(p.payloads, id))
    && (forall id | id in before :: id in p.store.states)
  }

  /** Such a verdict on this window is worth listing. */
  predicate Tellable(before: States, id: WindowIdentity, d: AdDecision) { d.Matched() || Flagged(d.signals) || id in before }

  lemma ListedStays(a: seq<Payload>, b: seq<Payload>)
    requires a <= b
    ensures forall id | Listed(a, id) :: Listed(b, id)
  {
    forall id | Listed(a, id) ensures Listed(b, id) {
      var k :| 0 <= k < |a| && a[k].identity == id;
      assert b[k] == a[k];
    }
  }

  lemma ReasonsStay(before: States, a: seq<Payload>, b: seq<Payload>, k: nat)
    requires a <= b && k < |a| && HasReason(before, a, k)
    ensures HasReason(before, b, k)
  {
    assert b[..k] == a[..k];
  }

  /** A verdict is stored and listed. */
  lemma StoredIsListed(before: States, p: Preview, id: WindowIdentity, d: AdDecision, ticks: int)
    requires InOrder(before, p.(store := p.store.(touched := p.store.touched - {id})))
    requires Tellable(before, id, d) || id in p.store.states
    ensures var r := StoreUpdate(p.store, id, d, ticks);
            var p' := Preview(r.store, p.payloads + [PayloadOf(id, d, r)]);
            InOrder(before, p') && p.payloads <= p'.payloads && Listed(p'.payloads, id)
  {
    var r := StoreUpdate(p.store, id, d, ticks);
    var payloads := p.payloads + [PayloadOf(id, d, r)];
    assert payloads[|p.payloads|].identity == id;
    ListedStays(p.payloads, payloads);
    forall k: nat | k < |payloads| ensures HasReason(before, payloads, k) {
      if k < |p.payloads| {
        ReasonsStay(before, p.payloads, payloads, k);
      } else {
        assert payloads[..k] == p.payloads;
      }
    }
  }

  lemma OneIsListed(before: States, p: Preview, id: WindowIdentity, d: AdDecision, rules: Rules)
    requires InOrder(before, p)
    ensures var p' := InspectOne(p, id, d, rules);
            InOrder(before, p') && p.payloads <= p'.payloads && (Tellable(before, id, d) ==> Listed(p'.payloads, id))
  {
    RelevantMeansFlagged(d.signals);
    var track := !d.Matched() && (id in p.store.states || d.signals.HasRelevantSignal());
    if d.Matched() || (track && id !in p.store.touched) {
      StoredIsListed(before, p.(store := p.store.(touched := p.store.touched + {id})), id, d, rules.weakSignalConfirmTicks);
    }
  }

  // ---------------------------------------------------------------- the loops

  predicate ChildIsListed(before: States, payloads: seq<Payload>, g: WindowGraph, settings: Settings, rules: Rules, c: ChildContext,
                          parentText: string, adSignal: bool) {
    var close := CloseVerdict(g, rules, c, parentText, adSignal);
    && (close.Some? && Tellable(before, c.identity, close.value) ==> Listed(payloads, c.identity))
    && (settings.aggressiveMode && c.childRect.Some? && Tellable(before, c.identity, c.aggressive) ==> Listed(payloads, c.identity))
  }

  lemma ChildLists(before: States, p: Preview, g: WindowGraph, settings: Settings, rules: Rules, c: ChildContext, parentText: string, adSignal: bool)
    requires InOrder(before, p)
    ensures var p' := InspectChild(p, g, settings, rules, c, parentText, adSignal);
            InOrder(before, p') && p.payloads <= p'.payloads && ChildIsListed(before, p'.payloads, g, settings, rules, c, parentText, adSignal)
  {
    var close := CloseVerdict(g, rules, c, parentText, adSignal);
    if close.Some? {
      OneIsListed(before, p, c.identity, close.value, rules);
    }
    var p1 := if close.Some? then InspectOne(p, c.identity, close.value, rules) else p;
    OneIsListed(before, p1, c.identity, c.aggressive, rules);
    ListedStays(p1.payloads, InspectChild(p, g, settings, rules, c, parentText, adSignal).payloads);
  }

  lemma {:induction false} ChildrenList(before: States, p: Preview, g: WindowGraph, settings: Settings, rules: Rules, ctxs: seq<ChildContext>,
                                        parentText: string, adSignal: bool)
    requires InOrder(before, p)
    ensures var p' := InspectChildren(p, g, settings, rules, ctxs, parentText, adSignal);
            && InOrder(before, p') && p.payloads <= p'.payloads
            && forall c | c in ctxs :: ChildIsListed(before, p'.payloads, g, settings, rules, c, parentText, adSignal)
    decreases ctxs
  {
    if ctxs != [] {
      var p1 := InspectChild(p, g, settings, rules, ctxs[0], parentText, adSignal);
      ChildLists(before, p, g, settings, rules, ctxs[0], parentText, adSignal);
      ChildrenList(before, p1, g, settings, rules, ctxs[1..], parentText, adSignal);
      ListedStays(p1.payloads, InspectChildren(p1, g, settings, rules, ctxs[1..], parentText, adSignal).payloads);
    }
  }

  /** Every child of this window with something to say about it is listed. */
  predicate MainIsListed(before: States, payloads: seq<Payload>, g: WindowGraph, settings: Settings, rules: Rules, m: Hwnd) {
    m in g.nodes && g.nodes[m].rect.Some? ==>
      var ctxs := Contexts(g, settings, rules, m, g.ChildrenOf(m), g.nodes[m].rect.value);
      forall c | c in ctxs :: ChildIsListed(before, payloads, g, settings, rules, c, g.nodes[m].Text(), AnyAdSignal(ctxs))
  }

  lemma MainStays(before: States, a: seq<Payload>, b: seq<Payload>, g: WindowGraph, settings: Settings, rules: Rules, m: Hwnd)
    requires a <= b && MainIsListed(before, a, g, settings, rules, m)
    ensures MainIsListed(before, b, g, settings, rules, m)
  {
    ListedStays(a, b);
  }

  lemma {:induction false} MainsList(before: States, p: Preview, g: WindowGraph, settings: Settings, rules: Rules, mains: seq<Hwnd>)
    requires InOrder(before, p)
    ensures var p' := InspectMains(p, g, settings, rules, mains);
            && InOrder(before, p') && p.payloads <= p'.payloads
            && forall m | m in mains :: MainIsListed(before, p'.payloads, g, settings, rules, m)
    decreases mains
  {
    if mains != [] {
      var m := mains[0];
      if m in g.nodes && g.nodes[m].rect.Some? {
        var ctxs := Contexts(g, settings, rules, m, g.ChildrenOf(m), g.nodes[m].rect.value);
        ChildrenList(before, p, g, settings, rules, ctxs, g.nodes[m].Text(), AnyAdSignal(ctxs));
      }
      var p1 := InspectMain(p, g, settings, rules, m);
      MainsList(before, p1, g, settings, rules, mains[1..]);
      MainStays(before, p1.payloads, InspectMains(p1, g, settings, rules, mains[1..]).payloads, g, settings, rules, m);
    }
  }

  predicate CandidateIsListed(before: States, payloads: seq<Payload>, g: WindowGraph, rules: Rules, h: Hwnd) {
    h in g.nodes && (!LegacySignatureKind(g, rules, h).NoLegacy? || g.nodes[h].Identity() in before) ==> Listed(payloads, g.nodes[h].Identity())
  }

  lemma {:induction false} CandidatesList(before: States, p: Preview, g: WindowGraph, rules: Rules, candidates: seq<Hwnd>)
    requires InOrder(before, p)
    ensures var p' := InspectCandidates(p, g, rules, candidates);
            InOrder(before, p') && p.payloads <= p'.payloads && forall h | h in candidates :: CandidateIsListed(before, p'.payloads, g, rules, h)
    decreases candidates
  {
    if candidates != [] {
      var h := candidates[0];
      var d := LegacyDecision(LegacySignatureKind(g, rules, h));
      var p1 := if h in g.nodes then InspectOne(p, g.nodes[h].Identity(), d, rules) else p;
      if h in g.nodes {
        OneIsListed(before, p, g.nodes[h].Identity(), d, rules);
      }
      CandidatesList(before, p1, g, rules, candidates[1..]);
      ListedStays(p1.payloads, InspectCandidates(p1, g, rules, candidates[1..]).payloads);
    }
  }

  predicate MatchIsListed(payloads: seq<Payload>, g: WindowGraph, rules: Rules, host: WindowNode, hit: Hit)
    requires hit.0 in g.nodes
  {
    Listed(payloads, g.nodes[hit.0].Identity()) && (PopupHostGuard(rules, host).Allow? ==> Listed(payloads, host.Identity()))
  }

  lemma PopupIsListed(before: States, p: Preview, id: WindowIdentity, guard: PopupGuard, depth: int, rules: Rules)
    requires InOrder(before, p)
    ensures var p' := InspectPopup(p, id, PopupDecision(guard, depth), rules);
            InOrder(before, p') && p.payloads <= p'.payloads && Listed(p'.payloads, id)
  {
    StoredIsListed(before, p, id, PopupDecision(guard, depth), rules.weakSignalConfirmTicks);
  }

  lemma {:induction false} MatchesList(before: States, p: Preview, g: WindowGraph, rules: Rules, host: WindowNode, hits: seq<Hit>)
    requires InOrder(before, p) && forall hit | hit in hits :: hit.0 in g.nodes
    ensures var p' := InspectMatches(p, g, rules, host, hits);
            InOrder(before, p') && p.payloads <= p'.payloads && forall hit | hit in hits :: MatchIsListed(p'.payloads, g, rules, host, hit)
    decreases hits
  {
    if hits != [] {
      var hit, guard := hits[0], PopupHostGuard(rules, host);
      assert hit in hits;
      if guard.Allow? {
        PopupIsListed(before, p, host.Identity(), guard, hit.1, rules);
      }
      var p1 := if guard.Allow? then InspectPopup(p, host.Identity(), PopupDecision(guard, hit.1), rules) else p;
      PopupIsListed(before, p1, g.nodes[hit.0].Identity(), guard, hit.1, rules);
      var p2 := InspectMatch(p, g, rules, host, hit);
      MatchesList(before, p2, g, rules, host, hits[1..]);
      ListedStays(p1.payloads, p2.payloads);
      ListedStays(p2.payloads, InspectMatches(p2, g, rules, host, hits[1..]).payloads);
    }
  }

  predicate HostIsListed(payloads: seq<Payload>, g: WindowGraph, rules: Rules, mains: set<Hwnd>, host: Hwnd) {
    IsPopupHost(g, mains, host) ==>
      forall hit | hit in PopupMatches(g, rules, host) :: hit.0 in g.nodes && MatchIsListed(payloads, g, rules, g.nodes[host], hit)
  }

  lemma {:induction false} PopupsList(before: States, p: Preview, g: WindowGraph, rules: Rules, mains: set<Hwnd>, hosts: seq<Hwnd>)
    requires InOrder(before, p)
    ensures var p' := InspectPopups(p, g, rules, mains, hosts);
            InOrder(before, p') && p.payloads <= p'.payloads && forall host | host in hosts :: HostIsListed(p'.payloads, g, rules, mains, host)
    decreases hosts
  {
    if hosts != [] {
      var host := hosts[0];
      MatchingHitsKept(g, rules, Descendants(g, host, rules.popupSearchDepth));
      if IsPopupHost(g, mains, host) {
        MatchesList(before, p, g, rules, g.nodes[host], PopupMatches(g, rules, host));
      }
      var p1 := if IsPopupHost(g, mains, host) then InspectMatches(p, g, rules, g.nodes[host], PopupMatches(g, rules, host)) else p;
      PopupsList(before, p1, g, rules, mains, hosts[1..]);
      ListedStays(p1.payloads, InspectPopups(p1, g, rules, mains, hosts[1..]).payloads);
    }
  }

  /** On any graph: everything listed has a reason; and every child of a confirmed main window, every candidate
      and every popup match with a match or a signal, or known before, is listed, and so is an allowed host. */
  lemma PreviewListsExactly(g: WindowGraph, settings: Settings, rules: Rules, states: States)
    ensures var payloads, mains := Inspect(g, settings, rules, states).payloads, ConfirmedMains(g, rules);
            && (forall k: nat | k < |payloads| :: HasReason(states, payloads, k))
            && (forall m | m in mains :: MainIsListed(states, payloads, g, settings, rules, m))
            && (forall h | h in Candidates(g, rules, Members(mains)) :: CandidateIsListed(states, payloads, g, rules, h))
            && (forall host | host in TopLevel(g) :: HostIsListed(payloads, g, rules, Members(mains), host))
  {
    var mains, p0 := ConfirmedMains(g, rules), Preview(Store(states, {}, []), []);
    MainsList(states, p0, g, settings, rules, mains);
    var p1 := InspectMains(p0, g, settings, rules, mains);
    CandidatesList(states, p1, g, rules, Candidates(g, rules, Members(mains)));
    var p2 := InspectCandidates(p1, g, rules, Candidates(g, rules, Members(mains)));
    PopupsList(states, p2, g, rules, Members(mains), TopLevel(g));
    var p3 := InspectPopups(p2, g, rules, Members(mains), TopLevel(g));
    ListedStays(p2.payloads, p3.payloads);
    forall m | m in mains ensures MainIsListed(states, p3.payloads, g, settings, rules, m) {
      MainStays(states, p1.payloads, p3.payloads, g, settings, rules, m);
    }
  }
}

/** The streak of every window is the run of matches recorded for it, on any graph. */
module LockStep {
  import opened Model
  import opened Ordering
  import opened Search
  import opened Signals
  import opened Evaluate

  function StreakIn(states: States, id: WindowIdentity): int {
    if id in states then states[id].matchStreak else 0
  }

  /** The length of the current run of matches for a window, from the recorded verdicts alone. */
  function RunLength(before: States, vs: seq<Verdict>, id: WindowIdentity): int {
    if vs == [] then StreakIn(before, id)
    else
      var last, rest := vs[|vs| - 1], vs[..|vs| - 1];
      if last.identity != id then RunLength(before, rest, id)
      else if last.decision.Matched() then RunLength(before, rest, id) + 1
      else 0
  }

  /** A weak match is confirmed exactly when its run is long enough, a strong one at once. */
  predicate ConfirmedAt(before: States, vs: seq<Verdict>, k: nat, ticks: int)
    requires k < |vs|
  {
    vs[k].confirmed == (vs[k].decision.Matched()
      && (vs[k].decision.strength.Strong? || RunLength(before, vs[..k + 1], vs[k].identity) >= Confirmations(ticks)))
  }

  /** The state map and the recorded verdicts tell the same story. */
  ghost predicate InLockStep(before: States, s: Store, ticks: int) {
    && (forall id :: StreakIn(s.states, id) == RunLength(before, s.verdicts, id))
    && (forall k: nat | k < |s.verdicts| :: ConfirmedAt(before, s.verdicts, k, ticks))
  }

  lemma UpdateInStep(before: States, s: Store, ticks: int, id: WindowIdentity, decision: AdDecision)
    requires InLockStep(before, s, ticks)
    ensures InLockStep(before, StoreUpdate(s, id, decision, ticks).store, ticks)
  {
    var r := StoreUpdate(s, id, decision, ticks);
    var vs, vs' := s.verdicts, r.store.verdicts;
    assert vs'[..|vs|] == vs;
    assert StreakIn(s.states, id) == RunLength(before, vs, id);
    forall x ensures StreakIn(r.store.states, x) == RunLength(before, vs', x) {
      assert StreakIn(s.states, x) == RunLength(before, vs, x);
    }
    forall k: nat | k < |vs'| ensures ConfirmedAt(before, vs', k, ticks) {
      if k < |vs| {
        assert ConfirmedAt(before, vs, k, ticks);
        assert vs'[..k + 1] == vs[..k + 1];
      } else {
        assert vs'[..k + 1] == vs';
      }
    }
  }

  lemma OnceInStep(before: States, s: Store, ticks: int, id: WindowIdentity, decision: AdDecision, track: bool)
    requires InLockStep(before, s, ticks)
    ensures var r := StoreOnce(s, id, decision, ticks, track);
            InLockStep(before, if r.Some? then r.value.store else s, ticks)
  {
    UpdateInStep(before, s.(touched := s.touched + {id}), ticks, id, decision);
  }

  lemma ChildInStep(before: States, a: Pass, g: WindowGraph, settings: Settings, rules: Rules, c: ChildContext,
                    parentText: string, parentRect: Rect, adSignal: bool)
    requires InLockStep(before, a.store, rules.weakSignalConfirmTicks)
    ensures InLockStep(before, ApplyChild(a, g, settings, rules, c, parentText, parentRect, adSignal).store, rules.weakSignalConfirmTicks)
  {
    var ticks, close := rules.weakSignalConfirmTicks, CloseVerdict(g, rules, c, parentText, adSignal);
    if close.Some? {
      OnceInStep(before, a.store, ticks, c.identity, close.value,
                 !close.value.Matched() && (c.identity in a.store.states || close.value.signals.HasRelevantSignal()));
    }
    var a1 := ApplyClose(a, g, rules, c, parentText, adSignal);
    assert InLockStep(before, a1.store, ticks);
    assert ApplyResize(a1, rules, c, parentRect).store == a1.store;
    OnceInStep(before, a1.store, ticks, c.identity, c.aggressive, !c.aggressive.Matched() && c.identity in a1.store.states);
  }

  lemma {:induction false} ChildrenInStep(before: States, a: Pass, g: WindowGraph, settings: Settings, rules: Rules, ctxs: seq<ChildContext>,
                                          parentText: string, parentRect: Rect, adSignal: bool)
    requires InLockStep(before, a.store, rules.weakSignalConfirmTicks)
    ensures InLockStep(before, ApplyChildren(a, g, settings, rules, ctxs, parentText, parentRect, adSignal).store, rules.weakSignalConfirmTicks)
    decreases ctxs
  {
    if ctxs != [] {
      ChildInStep(before, a, g, settings, rules, ctxs[0], parentText, parentRect, adSignal);
      ChildrenInStep(before, ApplyChild(a, g, settings, rules, ctxs[0], parentText, parentRect, adSignal), g, settings, rules, ctxs[1..],
                     parentText, parentRect, adSignal);
    }
  }

  lemma {:induction false} MainsInStep(before: States, a: Pass, g: WindowGraph, settings: Settings, rules: Rules, mains: seq<Hwnd>)
    requires InLockStep(before, a.store, rules.weakSignalConfirmTicks)
    ensures InLockStep(before, ApplyMains(a, g, settings, rules, mains).store, rules.weakSignalConfirmTicks)
    decreases mains
  {
    if mains != [] {
      var m := mains[0];
      if m in g.nodes && g.nodes[m].rect.Some? {
        var rect := g.nodes[m].rect.value;
        var ctxs := Contexts(g, settings, rules, m, g.ChildrenOf(m), rect);
        ChildrenInStep(before, a, g, settings, rules, ctxs, g.nodes[m].Text(), rect, AnyAdSignal(ctxs));
      }
      MainsInStep(before, ApplyMain(a, g, settings, rules, m), g, settings, rules, mains[1..]);
    }
  }

  lemma {:induction false} CandidatesInStep(before: States, a: Pass, g: WindowGraph, rules: Rules, candidates: seq<Hwnd>)
    requires InLockStep(before, a.store, rules.weakSignalConfirmTicks)
    ensures InLockStep(before, ApplyCandidates(a, g, rules, candidates).store, rules.weakSignalConfirmTicks)
    decreases candidates
  {
    if candidates != [] {
      var h := candidates[0];
      if h in g.nodes {
        var id, d := g.nodes[h].Identity(), LegacyDecision(LegacySignatureKind(g, rules, h));
        OnceInStep(before, a.store, rules.weakSignalConfirmTicks, id, d, !d.Matched() && id in a.store.states);
      }
      CandidatesInStep(before, ApplyCandidate(a, g, rules, h), g, rules, candidates[1..]);
    }
  }

  lemma {:induction false} MatchesInStep(before: States, a: PopupPass, g: WindowGraph, rules: Rules, host: WindowNode, hits: seq<Hit>)
    requires InLockStep(before, a.store, rules.weakSignalConfirmTicks)
    ensures InLockStep(before, ApplyMatches(a, g, rules, host, hits).store, rules.weakSignalConfirmTicks)
    decreases hits
  {
    if hits != [] {
      var h := hits[0].0;
      if h in g.nodes {
        UpdateInStep(before, a.store, rules.weakSignalConfirmTicks, g.nodes[h].Identity(), PopupDecision(PopupHostGuard(rules, host), hits[0].1));
      }
      MatchesInStep(before, ApplyMatch(a, g, rules, host, hits[0]), g, rules, host, hits[1..]);
    }
  }

  lemma {:induction false} PopupsInStep(before: States, a: PopupPass, g: WindowGraph, rules: Rules, mains: set<Hwnd>, hosts: seq<Hwnd>)
    requires InLockStep(before, a.store, rules.weakSignalConfirmTicks)
    ensures InLockStep(before, ApplyPopups(a, g, rules, mains, hosts).store, rules.weakSignalConfirmTicks)
    decreases hosts
  {
    if hosts != [] {
      var h := hosts[0];
      if IsPopupHost(g, mains, h) {
        MatchesInStep(before, a, g, rules, g.nodes[h], PopupMatches(g, rules, h));
        PopupsInStep(before, ApplyMatches(a, g, rules, g.nodes[h], PopupMatches(g, rules, h)), g, rules, mains, hosts[1..]);
      } else {
        PopupsInStep(before, a, g, rules, mains, hosts[1..]);
      }
    }
  }

  /** After one evaluation of any graph, every streak is the run of matches recorded for it, and a weak
      match was confirmed exactly when its run was long enough. */
  lemma EvaluationKeepsStep(g: WindowGraph, settings: Settings, rules: Rules, before: States)
    ensures InLockStep(before, Apply(g, settings, rules, before).store, rules.weakSignalConfirmTicks)
  {
    var mains, a0 := ConfirmedMains(g, rules), Pass(Store(before, {}, []), EMPTY_LOG);
    var candidates := Candidates(g, rules, Members(mains));
    MainsInStep(before, a0, g, settings, rules, mains);
    var a1 := ApplyMains(a0, g, settings, rules, mains);
    CandidatesInStep(before, a1, g, rules, candidates);
    var a2 := ApplyCandidates(a1, g, rules, candidates);
    PopupsInStep(before, PopupPass(a2.store, a2.log, {}), g, rules, Members(mains), TopLevel(g));
  }
}

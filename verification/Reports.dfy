/** What the diagnostic preview reports: one payload for each verdict, with the streaks of that moment. */
module Reports {
  import opened Model
  import opened Ordering
  import opened Search
  import opened Signals
  import opened Evaluate
  import opened LockStep
  import opened Evidence

  /** The length of the current run of misses of a window, from the recorded verdicts alone. */
  function Misses(before: States, vs: seq<Verdict>, id: WindowIdentity): int {
    if vs == [] then if id in before then before[id].missStreak else 0
    else
      var last, rest := vs[|vs| - 1], vs[..|vs| - 1];
      if last.identity != id then Misses(before, rest, id)
      else if last.decision.Matched() then 0
      else Misses(before, rest, id) + 1
  }

  ghost predicate MissesInStep(before: States, s: Store) {
    forall id :: (if id in s.states then s.states[id].missStreak else 0) == Misses(before, s.verdicts, id)
  }

  /** The payload says what was decided about whom, whether that still waits for confirmation, and how long
      the window has been matched or missed by then. */
  predicate Tells(before: States, vs: seq<Verdict>, k: nat, p: Payload)
    requires k < |vs|
  {
    && p.identity == vs[k].identity
    && p.signals == vs[k].decision.signals && p.strength == vs[k].decision.strength
    && p.action == PayloadAction(vs[k].decision.Matched() && !vs[k].confirmed, vs[k].decision.action)
    && p.matchStreak == RunLength(before, vs[..k + 1], vs[k].identity)
    && p.missStreak == Misses(before, vs[..k + 1], vs[k].identity)
  }

  ghost predicate Telling(before: States, p: Preview, ticks: int) {
    && InLockStep(before, p.store, ticks) && MissesInStep(before, p.store)
    && |p.payloads| == |p.store.verdicts|
    && forall k: nat | k < |p.payloads| :: Tells(before, p.store.verdicts, k, p.payloads[k])
  }

  lemma UpdateTells(before: States, p: Preview, id: WindowIdentity, d: AdDecision, ticks: int)
    requires Telling(before, p, ticks)
    ensures var r := StoreUpdate(p.store, id, d, ticks); Telling(before, Preview(r.store, p.payloads + [PayloadOf(id, d, r)]), ticks)
  {
    var r := StoreUpdate(p.store, id, d, ticks);
    var vs, vs' := p.store.verdicts, r.store.verdicts;
    UpdateInStep(before, p.store, ticks, id, d);
    assert vs'[..|vs|] == vs && vs'[..|vs| + 1] == vs';
    UpdateMisses(before, p.store, id, d, ticks);
    assert StreakIn(r.store.states, id) == RunLength(before, vs', id);
    var payloads := p.payloads + [PayloadOf(id, d, r)];
    forall k: nat | k < |payloads| ensures Tells(before, vs', k, payloads[k]) {
      if k < |vs| {
        assert Tells(before, vs, k, p.payloads[k]) && vs'[..k + 1] == vs[..k + 1];
      }
    }
  }

  lemma UpdateMisses(before: States, s: Store, id: WindowIdentity, d: AdDecision, ticks: int)
    requires MissesInStep(before, s)
    ensures var r := StoreUpdate(s, id, d, ticks);
            MissesInStep(before, r.store) && r.state.missStreak == Misses(before, r.store.verdicts, id)
  {
    var r := StoreUpdate(s, id, d, ticks);
    var vs' := r.store.verdicts;
    assert vs'[..|s.verdicts|] == s.verdicts;
    assert (if id in s.states then s.states[id].missStreak else 0) == Misses(before, s.verdicts, id);
    forall x ensures (if x in r.store.states then r.store.states[x].missStreak else 0) == Misses(before, vs', x) {
      assert (if x in s.states then s.states[x].missStreak else 0) == Misses(before, s.verdicts, x);
    }
  }

  lemma OneTells(before: States, p: Preview, id: WindowIdentity, d: AdDecision, rules: Rules)
    requires Telling(before, p, rules.weakSignalConfirmTicks)
    ensures Telling(before, InspectOne(p, id, d, rules), rules.weakSignalConfirmTicks)
  {
    UpdateTells(before, Preview(p.store.(touched := p.store.touched + {id}), p.payloads), id, d, rules.weakSignalConfirmTicks);
  }

  lemma {:induction false} ChildrenTell(before: States, p: Preview, g: WindowGraph, settings: Settings, rules: Rules, ctxs: seq<ChildContext>,
                                        parentText: string, adSignal: bool)
    requires Telling(before, p, rules.weakSignalConfirmTicks)
    ensures Telling(before, InspectChildren(p, g, settings, rules, ctxs, parentText, adSignal), rules.weakSignalConfirmTicks)
    decreases ctxs
  {
    if ctxs != [] {
      var c := ctxs[0];
      var close := CloseVerdict(g, rules, c, parentText, adSignal);
      if close.Some? {
        OneTells(before, p, c.identity, close.value, rules);
      }
      var p1 := if close.Some? then InspectOne(p, c.identity, close.value, rules) else p;
      OneTells(before, p1, c.identity, c.aggressive, rules);
      ChildrenTell(before, InspectChild(p, g, settings, rules, c, parentText, adSignal), g, settings, rules, ctxs[1..], parentText, adSignal);
    }
  }

  lemma {:induction false} MainsTell(before: States, p: Preview, g: WindowGraph, settings: Settings, rules: Rules, mains: seq<Hwnd>)
    requires Telling(before, p, rules.weakSignalConfirmTicks)
    ensures Telling(before, InspectMains(p, g, settings, rules, mains), rules.weakSignalConfirmTicks)
    decreases mains
  {
    if mains != [] {
      var m := mains[0];
      if m in g.nodes && g.nodes[m].rect.Some? {
        var ctxs := Contexts(g, settings, rules, m, g.ChildrenOf(m), g.nodes[m].rect.value);
        ChildrenTell(before, p, g, settings, rules, ctxs, g.nodes[m].Text(), AnyAdSignal(ctxs));
      }
      MainsTell(before, InspectMain(p, g, settings, rules, m), g, settings, rules, mains[1..]);
    }
  }

  lemma {:induction false} CandidatesTell(before: States, p: Preview, g: WindowGraph, rules: Rules, candidates: seq<Hwnd>)
    requires Telling(before, p, rules.weakSignalConfirmTicks)
    ensures Telling(before, InspectCandidates(p, g, rules, candidates), rules.weakSignalConfirmTicks)
    decreases candidates
  {
    if candidates != [] {
      var h := candidates[0];
      if h in g.nodes {
        var d := LegacyDecision(LegacySignatureKind(g, rules, h));
        OneTells(before, p, g.nodes[h].Identity(), d, rules);
        CandidatesTell(before, InspectOne(p, g.nodes[h].Identity(), d, rules), g, rules, candidates[1..]);
      } else {
        CandidatesTell(before, p, g, rules, candidates[1..]);
      }
    }
  }

  lemma {:induction false} MatchesTell(before: States, p: Preview, g: WindowGraph, rules: Rules, host: WindowNode, hits: seq<Hit>)
    requires Telling(before, p, rules.weakSignalConfirmTicks) && forall hit | hit in hits :: hit.0 in g.nodes
    ensures Telling(before, InspectMatches(p, g, rules, host, hits), rules.weakSignalConfirmTicks)
    decreases hits
  {
    if hits != [] {
      var hit, guard := hits[0], PopupHostGuard(rules, host);
      var d := PopupDecision(guard, hit.1);
      assert hit in hits;
      if guard.Allow? {
        UpdateTells(before, p, host.Identity(), d, rules.weakSignalConfirmTicks);
      }
      var p1 := if guard.Allow? then InspectPopup(p, host.Identity(), d, rules) else p;
      UpdateTells(before, p1, g.nodes[hit.0].Identity(), d, rules.weakSignalConfirmTicks);
      MatchesTell(before, InspectMatch(p, g, rules, host, hit), g, rules, host, hits[1..]);
    }
  }

  lemma {:induction false} PopupsTell(before: States, p: Preview, g: WindowGraph, rules: Rules, mains: set<Hwnd>, hosts: seq<Hwnd>)
    requires Telling(before, p, rules.weakSignalConfirmTicks)
    ensures Telling(before, InspectPopups(p, g, rules, mains, hosts), rules.weakSignalConfirmTicks)
    decreases hosts
  {
    if hosts != [] {
      MatchingHitsKept(g, rules, Descendants(g, hosts[0], rules.popupSearchDepth));
      if IsPopupHost(g, mains, hosts[0]) {
        MatchesTell(before, p, g, rules, g.nodes[hosts[0]], PopupMatches(g, rules, hosts[0]));
        PopupsTell(before, InspectMatches(p, g, rules, g.nodes[hosts[0]], PopupMatches(g, rules, hosts[0])), g, rules, mains, hosts[1..]);
      } else {
        PopupsTell(before, p, g, rules, mains, hosts[1..]);
      }
    }
  }

  /** On any graph the preview reports every verdict it records, in order, with the streaks of that moment,
      and calls a match pending exactly until it is strong or has lasted long enough. */
  lemma PreviewTellsAll(g: WindowGraph, settings: Settings, rules: Rules, states: States)
    ensures Telling(states, Inspect(g, settings, rules, states), rules.weakSignalConfirmTicks)
  {
    var mains, p0 := ConfirmedMains(g, rules), Preview(Store(states, {}, []), []);
    MainsTell(states, p0, g, settings, rules, mains);
    var p1 := InspectMains(p0, g, settings, rules, mains);
    CandidatesTell(states, p1, g, rules, Candidates(g, rules, Members(mains)));
    var p2 := InspectCandidates(p1, g, rules, Candidates(g, rules, Members(mains)));
    PopupsTell(states, p2, g, rules, Members(mains), TopLevel(g));
  }
}

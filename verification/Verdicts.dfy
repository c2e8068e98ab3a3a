/** Which windows one evaluation matches and where its targets come from. A single invariant is carried
    through the loops of the apply pass; `Provenance`, `Overlap` and `Streaks` draw the conclusions. */
module Verdicts {
  import opened Model
  import opened Ordering
  import opened Search
  import opened Signals
  import opened Evaluate

  // ---------------------------------------------------------------- who is matched

  /** Only windows in `done` were matched at all, and none twice except as an empty EVA child to be
      closed and then as a banner to be hidden. */
  predicate MatchedApart(vs: seq<Verdict>, done: set<Hwnd>) {
    && (forall i | 0 <= i < |vs| && vs[i].decision.Matched() :: vs[i].identity.hwnd in done)
    && (forall i, j | 0 <= i < j < |vs| && vs[i].decision.Matched() && vs[j].decision.Matched() && vs[i].identity.hwnd == vs[j].identity.hwnd ::
          vs[i].decision.action.Close? && vs[j].decision.action.Hide?)
  }

  /** The window was matched for closing at most. */
  predicate OnlyToClose(vs: seq<Verdict>, h: Hwnd) {
    forall i | 0 <= i < |vs| && vs[i].decision.Matched() && vs[i].identity.hwnd == h :: vs[i].decision.action.Close?
  }

  predicate MayMatch(vs: seq<Verdict>, done: set<Hwnd>, h: Hwnd, decision: AdDecision) {
    h !in done || (decision.action.Hide? && OnlyToClose(vs, h))
  }

  // ---------------------------------------------------------------- targets

  predicate MainChild(g: WindowGraph, mains: set<Hwnd>, h: Hwnd) {
    exists m | m in mains :: h in g.ChildrenOf(m) && IsTreeChild(g, m, h)
  }

  predicate LegacyCandidate(g: WindowGraph, rules: Rules, mains: set<Hwnd>, h: Hwnd) {
    h in TopLevel(g) && IsCandidate(g, rules, mains, h)
  }

  /** An allowed popup host with at least one match, or one of its matches. */
  predicate PopupPart(g: WindowGraph, rules: Rules, mains: set<Hwnd>, h: Hwnd) {
    exists host | host in TopLevel(g) ::
      && IsPopupHost(g, mains, host)
      && PopupHostGuard(rules, g.nodes[host]).Allow?
      && exists hit | hit in PopupMatches(g, rules, host) :: h == host || h == hit.0
  }

  predicate Confirmed(vs: seq<Verdict>, h: Hwnd, action: ActionKind) {
    exists v | v in vs :: v.confirmed && v.identity.hwnd == h && v.decision.action == action
  }

  predicate LogFits(g: WindowGraph, rules: Rules, mains: set<Hwnd>, vs: seq<Verdict>, log: Log) {
    && (forall h | h in log.hides ::
          || ((MainChild(g, mains, h) || LegacyCandidate(g, rules, mains, h)) && Confirmed(vs, h, Hide))
          || PopupPart(g, rules, mains, h))
    && (forall h | h in log.closes ::
          || (MainChild(g, mains, h) && Confirmed(vs, h, Close))
          || (PopupPart(g, rules, mains, h) && h in g.nodes && g.nodes[h].visible))
    && (forall p | p in log.setPos ::
          if p.ViewResize() then MainChild(g, mains, p.hwnd) && p.x == 0 && p.y == 0
          else p == Pos(p.hwnd, 0, 0, 0, 0) && PopupPart(g, rules, mains, p.hwnd) && p.hwnd in log.hides)
  }

  predicate PassFits(g: WindowGraph, rules: Rules, mains: set<Hwnd>, s: Store, log: Log, done: set<Hwnd>) {
    && MatchedApart(s.verdicts, done)
    && LogFits(g, rules, mains, s.verdicts, log)
  }

  // ---------------------------------------------------------------- recording one verdict

  lemma UpdateFits(g: WindowGraph, rules: Rules, mains: set<Hwnd>, s: Store, log: Log, done: set<Hwnd>,
                   id: WindowIdentity, decision: AdDecision)
    requires PassFits(g, rules, mains, s, log, done)
    requires decision.Matched() ==> MayMatch(s.verdicts, done, id.hwnd, decision)
    ensures var r := StoreUpdate(s, id, decision, rules.weakSignalConfirmTicks);
            && PassFits(g, rules, mains, r.store, log, done + if decision.Matched() then {id.hwnd} else {})
            && (r.confirmed ==> Confirmed(r.store.verdicts, id.hwnd, decision.action))
  {
    var r := StoreUpdate(s, id, decision, rules.weakSignalConfirmTicks);
    var vs, vs' := s.verdicts, r.store.verdicts;
    var v := vs'[|vs|];
    assert vs' == vs + [v] && v in vs';
    MoreVerdicts(g, rules, mains, vs, v, log);
  }

  lemma MoreVerdicts(g: WindowGraph, rules: Rules, mains: set<Hwnd>, vs: seq<Verdict>, v: Verdict, log: Log)
    requires LogFits(g, rules, mains, vs, log)
    ensures LogFits(g, rules, mains, vs + [v], log)
  {
    forall h, action | Confirmed(vs, h, action) ensures Confirmed(vs + [v], h, action) {
      var w :| w in vs && w.confirmed && w.identity.hwnd == h && w.decision.action == action;
      assert w in vs + [v];
    }
  }

  lemma OnceFits(g: WindowGraph, rules: Rules, mains: set<Hwnd>, s: Store, log: Log, done: set<Hwnd>,
                 id: WindowIdentity, decision: AdDecision, track: bool)
    requires PassFits(g, rules, mains, s, log, done)
    requires decision.Matched() ==> MayMatch(s.verdicts, done, id.hwnd, decision)
    ensures var r := StoreOnce(s, id, decision, rules.weakSignalConfirmTicks, track);
            var s' := if r.Some? then r.value.store else s;
            && PassFits(g, rules, mains, s', log, done + if decision.Matched() then {id.hwnd} else {})
            && (r.Some? && r.value.confirmed ==> Confirmed(s'.verdicts, id.hwnd, decision.action))
  {
    if decision.Matched() || (track && id !in s.touched) {
      UpdateFits(g, rules, mains, s.(touched := s.touched + {id}), log, done, id, decision);
    } else {
      assert done + {} == done;
    }
  }

  lemma MoreDone(g: WindowGraph, rules: Rules, mains: set<Hwnd>, s: Store, log: Log, done: set<Hwnd>, more: set<Hwnd>)
    requires PassFits(g, rules, mains, s, log, done) && done <= more
    ensures PassFits(g, rules, mains, s, log, more)
  {
  }

  // ---------------------------------------------------------------- main windows

  predicate ContextOk(g: WindowGraph, rules: Rules, mains: set<Hwnd>, c: ChildContext) {
    && MainChild(g, mains, c.child) && c.identity.hwnd == c.child
    && (c.aggressive.Matched() ==> c.aggressive.action.Hide?)
  }

  lemma CloseFits(g: WindowGraph, rules: Rules, mains: set<Hwnd>, a: Pass, done: set<Hwnd>,
                  c: ChildContext, parentText: string, adSignal: bool)
    requires PassFits(g, rules, mains, a.store, a.log, done)
    requires ContextOk(g, rules, mains, c) && c.child !in done
    ensures var a' := ApplyClose(a, g, rules, c, parentText, adSignal);
            PassFits(g, rules, mains, a'.store, a'.log, done + if c.className == rules.evaChildClass then {c.child} else {})
  {
    var verdict := CloseVerdict(g, rules, c, parentText, adSignal);
    var done' := done + if c.className == rules.evaChildClass then {c.child} else {};
    if verdict.Some? {
      var d := verdict.value;
      var track := !d.Matched() && (c.identity in a.store.states || d.signals.HasRelevantSignal());
      OnceFits(g, rules, mains, a.store, a.log, done, c.identity, d, track);
      var a' := ApplyClose(a, g, rules, c, parentText, adSignal);
      var done1 := done + if d.Matched() then {c.child} else {};
      assert PassFits(g, rules, mains, a'.store, a'.log, done1);
      MoreDone(g, rules, mains, a'.store, a'.log, done1, done');
    } else {
      MoreDone(g, rules, mains, a.store, a.log, done, done');
    }
  }

  lemma ResizeFits(g: WindowGraph, rules: Rules, mains: set<Hwnd>, a: Pass, done: set<Hwnd>,
                   c: ChildContext, parentRect: Rect)
    requires PassFits(g, rules, mains, a.store, a.log, done) && ContextOk(g, rules, mains, c)
    ensures var a' := ApplyResize(a, rules, c, parentRect);
            PassFits(g, rules, mains, a'.store, a'.log, done)
  {
  }

  lemma AggressiveFits(g: WindowGraph, settings: Settings, rules: Rules, mains: set<Hwnd>, a: Pass, done: set<Hwnd>,
                       c: ChildContext)
    requires PassFits(g, rules, mains, a.store, a.log, done) && ContextOk(g, rules, mains, c)
    requires OnlyToClose(a.store.verdicts, c.child)
    ensures var a' := ApplyAggressive(a, settings, rules, c);
            PassFits(g, rules, mains, a'.store, a'.log, done + {c.child})
  {
    if settings.aggressiveMode && c.childRect.Some? {
      var track := !c.aggressive.Matched() && c.identity in a.store.states;
      OnceFits(g, rules, mains, a.store, a.log, done, c.identity, c.aggressive, track);
      var a' := ApplyAggressive(a, settings, rules, c);
      var done1 := done + if c.aggressive.Matched() then {c.child} else {};
      assert PassFits(g, rules, mains, a'.store, a'.log, done1);
      MoreDone(g, rules, mains, a'.store, a'.log, done1, done + {c.child});
    } else {
      MoreDone(g, rules, mains, a.store, a.log, done, done + {c.child});
    }
  }

  lemma OnlyToCloseStays(a: Pass, g: WindowGraph, rules: Rules, c: ChildContext, parentText: string, adSignal: bool)
    requires OnlyToClose(a.store.verdicts, c.child)
    ensures OnlyToClose(ApplyClose(a, g, rules, c, parentText, adSignal).store.verdicts, c.child)
  {
  }

  lemma ChildFits(g: WindowGraph, settings: Settings, rules: Rules, mains: set<Hwnd>, a: Pass, done: set<Hwnd>,
                  c: ChildContext, parentText: string, parentRect: Rect, adSignal: bool)
    requires PassFits(g, rules, mains, a.store, a.log, done)
    requires ContextOk(g, rules, mains, c) && c.child !in done
    ensures var a' := ApplyChild(a, g, settings, rules, c, parentText, parentRect, adSignal);
            PassFits(g, rules, mains, a'.store, a'.log, done + {c.child})
  {
    CloseFits(g, rules, mains, a, done, c, parentText, adSignal);
    var a1 := ApplyClose(a, g, rules, c, parentText, adSignal);
    var done1 := done + if c.className == rules.evaChildClass then {c.child} else {};
    ResizeFits(g, rules, mains, a1, done1, c, parentRect);
    var a2 := ApplyResize(a1, rules, c, parentRect);
    assert OnlyToClose(a.store.verdicts, c.child);
    OnlyToCloseStays(a, g, rules, c, parentText, adSignal);
    AggressiveFits(g, settings, rules, mains, a2, done1, c);
    assert done1 + {c.child} == done + {c.child};
  }

  function ContextHandles(ctxs: seq<ChildContext>): set<Hwnd> { set c | c in ctxs :: c.child }

  predicate DistinctContexts(ctxs: seq<ChildContext>) {
    forall i, j | 0 <= i < j < |ctxs| :: ctxs[i].child != ctxs[j].child
  }

  lemma {:induction false} ChildrenFit(g: WindowGraph, settings: Settings, rules: Rules, mains: set<Hwnd>, a: Pass, done: set<Hwnd>,
                                       ctxs: seq<ChildContext>, parentText: string, parentRect: Rect, adSignal: bool)
    requires PassFits(g, rules, mains, a.store, a.log, done)
    requires DistinctContexts(ctxs) && ContextHandles(ctxs) !! done
    requires forall c | c in ctxs :: ContextOk(g, rules, mains, c)
    ensures var a' := ApplyChildren(a, g, settings, rules, ctxs, parentText, parentRect, adSignal);
            PassFits(g, rules, mains, a'.store, a'.log, done + ContextHandles(ctxs))
    decreases ctxs
  {
    if ctxs == [] {
      assert done + ContextHandles(ctxs) == done;
    } else {
      var c, rest := ctxs[0], ctxs[1..];
      assert c in ctxs && c.child in ContextHandles(ctxs);
      ChildFits(g, settings, rules, mains, a, done, c, parentText, parentRect, adSignal);
      assert c.child !in ContextHandles(rest);
      ChildrenFit(g, settings, rules, mains, ApplyChild(a, g, settings, rules, c, parentText, parentRect, adSignal),
                  done + {c.child}, rest, parentText, parentRect, adSignal);
      assert done + ContextHandles(ctxs) == done + {c.child} + ContextHandles(rest);
    }
  }

  lemma {:induction false} ContextsOk(g: WindowGraph, settings: Settings, rules: Rules, mains: set<Hwnd>, wnd: Hwnd, children: seq<Hwnd>, rect: Rect)
    requires g.WellKeyed() && wnd in mains && NoDuplicates(children)
    requires forall c | c in children :: c in g.ChildrenOf(wnd)
    ensures var ctxs := Contexts(g, settings, rules, wnd, children, rect);
            && (forall c | c in ctxs :: ContextOk(g, rules, mains, c))
            && ContextHandles(ctxs) <= Members(children)
            && DistinctContexts(ctxs)
  {
    if children != [] {
      var rest := children[1..];
      assert NoDuplicates(rest);
      ContextsOk(g, settings, rules, mains, wnd, rest, rect);
      assert children[0] !in rest;
      if IsTreeChild(g, wnd, children[0]) {
        assert ContextOk(g, rules, mains, ContextOf(g, settings, rules, children[0], rect));
      }
      var more := Contexts(g, settings, rules, wnd, rest, rect);
      forall c | c in more ensures c.child != children[0] && c.child in Members(children) {
        assert c.child in ContextHandles(more);
      }
      forall c | c in Contexts(g, settings, rules, wnd, children, rect) ensures c.child in Members(children) {
        assert c.child == children[0] || c in more;
      }
    }
  }

  /** Handles recorded in the tree as children of one of `mains`. */
  function ChildrenOfAll(g: WindowGraph, mains: seq<Hwnd>): set<Hwnd> {
    set m, c | m in mains && c in g.ChildrenOf(m) :: c
  }

  lemma {:induction false} MainsFit(g: WindowGraph, settings: Settings, rules: Rules, mains: set<Hwnd>, a: Pass, done: set<Hwnd>, todo: seq<Hwnd>)
    requires PassFits(g, rules, mains, a.store, a.log, done) && Forest(g)
    requires Ascending(todo) && Members(todo) <= mains && ChildrenOfAll(g, todo) !! done
    ensures var a' := ApplyMains(a, g, settings, rules, todo);
            PassFits(g, rules, mains, a'.store, a'.log, done + ChildrenOfAll(g, todo))
    decreases todo
  {
    if todo == [] {
      assert done + ChildrenOfAll(g, todo) == done;
    } else {
      var wnd, rest := todo[0], todo[1..];
      assert wnd in todo && wnd in Members(todo);
      var kids := Members(g.ChildrenOf(wnd));
      forall c | c in kids ensures c in ChildrenOfAll(g, todo) {
        assert wnd in todo && c in g.ChildrenOf(wnd);
      }
      var a1 := ApplyMain(a, g, settings, rules, wnd);
      MainFits(g, settings, rules, mains, a, done, wnd);
      assert ChildrenOfAll(g, rest) !! kids by {
        forall c | c in ChildrenOfAll(g, rest) ensures c !in kids {
          var m :| m in rest && c in g.ChildrenOf(m);
          if c in kids {
            OneParent(g, m, wnd, c);
          }
        }
      }
      MainsFit(g, settings, rules, mains, a1, done + kids, rest);
      assert ChildrenOfAll(g, todo) == kids + ChildrenOfAll(g, rest) by {
        assert todo == [wnd] + rest;
      }
      assert done + ChildrenOfAll(g, todo) == done + kids + ChildrenOfAll(g, rest);
    }
  }

  lemma MainFits(g: WindowGraph, settings: Settings, rules: Rules, mains: set<Hwnd>, a: Pass, done: set<Hwnd>, wnd: Hwnd)
    requires PassFits(g, rules, mains, a.store, a.log, done) && Forest(g)
    requires wnd in mains && Members(g.ChildrenOf(wnd)) !! done
    ensures var a1 := ApplyMain(a, g, settings, rules, wnd);
            PassFits(g, rules, mains, a1.store, a1.log, done + Members(g.ChildrenOf(wnd)))
  {
    var kids := Members(g.ChildrenOf(wnd));
    var a1 := ApplyMain(a, g, settings, rules, wnd);
    if wnd in g.nodes && g.nodes[wnd].pid in g.pids && g.nodes[wnd].rect.Some? {
      var rect := g.nodes[wnd].rect.value;
      ContextsOk(g, settings, rules, mains, wnd, g.ChildrenOf(wnd), rect);
      var ctxs := Contexts(g, settings, rules, wnd, g.ChildrenOf(wnd), rect);
      ChildrenFit(g, settings, rules, mains, a, done, ctxs, g.nodes[wnd].Text(), rect, AnyAdSignal(ctxs));
      MoreDone(g, rules, mains, a1.store, a1.log, done + ContextHandles(ctxs), done + kids);
    } else {
      MoreDone(g, rules, mains, a.store, a.log, done, done + kids);
    }
  }

  // ---------------------------------------------------------------- legacy candidates

  lemma {:induction false} CandidatesFit(g: WindowGraph, rules: Rules, mains: set<Hwnd>, a: Pass, done: set<Hwnd>, todo: seq<Hwnd>)
    requires PassFits(g, rules, mains, a.store, a.log, done) && g.WellKeyed()
    requires Ascending(todo) && Members(todo) !! done
    requires forall h | h in todo :: LegacyCandidate(g, rules, mains, h)
    ensures var a' := ApplyCandidates(a, g, rules, todo);
            PassFits(g, rules, mains, a'.store, a'.log, done + Members(todo))
    decreases todo
  {
    if todo == [] {
      assert done + Members(todo) == done;
    } else {
      var wnd, rest := todo[0], todo[1..];
      assert wnd in todo && wnd in Members(todo);
      var a1 := ApplyCandidate(a, g, rules, wnd);
      CandidateFits(g, rules, mains, a, done, wnd);
      assert wnd !in Members(rest);
      CandidatesFit(g, rules, mains, a1, done + {wnd}, rest);
      assert done + Members(todo) == done + {wnd} + Members(rest);
    }
  }

  lemma CandidateFits(g: WindowGraph, rules: Rules, mains: set<Hwnd>, a: Pass, done: set<Hwnd>, wnd: Hwnd)
    requires PassFits(g, rules, mains, a.store, a.log, done) && g.WellKeyed()
    requires wnd !in done && LegacyCandidate(g, rules, mains, wnd)
    ensures var a1 := ApplyCandidate(a, g, rules, wnd);
            PassFits(g, rules, mains, a1.store, a1.log, done + {wnd})
  {
    var a1 := ApplyCandidate(a, g, rules, wnd);
    var d := LegacyDecision(LegacySignatureKind(g, rules, wnd));
    var id := g.nodes[wnd].Identity();
    if g.nodes[wnd].pid in g.pids {
      OnceFits(g, rules, mains, a.store, a.log, done, id, d, !d.Matched() && id in a.store.states);
      var done1 := done + if d.Matched() then {wnd} else {};
      assert PassFits(g, rules, mains, a1.store, a1.log, done1);
      MoreDone(g, rules, mains, a1.store, a1.log, done1, done + {wnd});
    } else {
      MoreDone(g, rules, mains, a.store, a.log, done, done + {wnd});
    }
  }

  // ---------------------------------------------------------------- popups

  lemma RetainFits(g: WindowGraph, rules: Rules, mains: set<Hwnd>, a: PopupPass, done: set<Hwnd>, h: Hwnd)
    requires PassFits(g, rules, mains, a.store, a.log, done)
    requires PopupPart(g, rules, mains, h) && h in g.nodes
    ensures var a' := RetainOnce(a, h, g.nodes[h].visible);
            PassFits(g, rules, mains, a'.store, a'.log, done)
  {
  }

  lemma MatchFits(g: WindowGraph, rules: Rules, mains: set<Hwnd>, a: PopupPass, done: set<Hwnd>, host: Hwnd, hit: Hit)
    requires PassFits(g, rules, mains, a.store, a.log, done) && g.WellKeyed()
    requires host in TopLevel(g) && IsPopupHost(g, mains, host)
    requires hit in PopupMatches(g, rules, host) && hit.0 in g.nodes && hit.0 !in done
    ensures var a' := ApplyMatch(a, g, rules, g.nodes[host], hit);
            PassFits(g, rules, mains, a'.store, a'.log, done + {hit.0})
  {
    var guard := PopupHostGuard(rules, g.nodes[host]);
    var d := PopupDecision(guard, hit.1);
    var id := g.nodes[hit.0].Identity();
    assert id.hwnd == hit.0;
    UpdateFits(g, rules, mains, a.store, a.log, done, id, d);
    var a1 := a.(store := StoreUpdate(a.store, id, d, rules.weakSignalConfirmTicks).store);
    MoreDone(g, rules, mains, a1.store, a1.log, done + if d.Matched() then {hit.0} else {}, done + {hit.0});
    if guard.Allow? {
      assert PopupPart(g, rules, mains, host) && PopupPart(g, rules, mains, hit.0);
      RetainFits(g, rules, mains, a1, done + {hit.0}, host);
      RetainFits(g, rules, mains, RetainOnce(a1, host, g.nodes[host].visible), done + {hit.0}, hit.0);
    }
  }

  function HitHandles(hits: seq<Hit>): set<Hwnd> { set hit | hit in hits :: hit.0 }

  lemma {:induction false} MatchesFit(g: WindowGraph, rules: Rules, mains: set<Hwnd>, a: PopupPass, done: set<Hwnd>, host: Hwnd, hits: seq<Hit>)
    requires PassFits(g, rules, mains, a.store, a.log, done) && g.WellKeyed()
    requires host in TopLevel(g) && IsPopupHost(g, mains, host)
    requires forall hit | hit in hits :: hit in PopupMatches(g, rules, host) && hit.0 in g.nodes
    requires Once(hits) && HitHandles(hits) !! done
    ensures var a' := ApplyMatches(a, g, rules, g.nodes[host], hits);
            PassFits(g, rules, mains, a'.store, a'.log, done + HitHandles(hits))
    decreases hits
  {
    if hits == [] {
      assert done + HitHandles(hits) == done;
    } else {
      var hit, rest := hits[0], hits[1..];
      assert hit in hits && hit.0 in HitHandles(hits);
      MatchFits(g, rules, mains, a, done, host, hit);
      assert Once(rest) && hit.0 !in HitHandles(rest);
      MatchesFit(g, rules, mains, ApplyMatch(a, g, rules, g.nodes[host], hit), done + {hit.0}, host, rest);
      assert done + HitHandles(hits) == done + {hit.0} + HitHandles(rest) by {
        assert hits == [hit] + rest;
      }
    }
  }

  /** Only one top-level window leads to any given window. */
  lemma {:induction false} OneRoot(g: WindowGraph, r1: Hwnd, r2: Hwnd, h: Hwnd, d1: nat, d2: nat)
    requires Forest(g) && Reach(g, r1, h, d1) && Reach(g, r2, h, d2)
    requires r1 in g.nodes && g.nodes[r1].structuralParent.None?
    requires r2 in g.nodes && g.nodes[r2].structuralParent.None?
    ensures r1 == r2
    decreases d1
  {
    if d1 > 0 {
      var q1 := LastEdge(g, r1, h, d1);
      NotAChild(g, q1, r2);
      if d2 > 0 {
        var q2 := LastEdge(g, r2, h, d2);
        OneParent(g, q1, q2, h);
        OneRoot(g, r1, r2, q1, d1 - 1, d2 - 1);
      }
    } else if d2 > 0 {
      var q2 := LastEdge(g, r2, h, d2);
      NotAChild(g, q2, r1);
    }
  }

  lemma {:induction false} PopupsFit(g: WindowGraph, rules: Rules, mains: set<Hwnd>, a: PopupPass, done: set<Hwnd>, hosts: seq<Hwnd>)
    returns (done': set<Hwnd>)
    requires PassFits(g, rules, mains, a.store, a.log, done) && Forest(g)
    requires Ascending(hosts) && forall h | h in hosts :: h in TopLevel(g) && h in g.nodes && g.nodes[h].structuralParent.None?
    requires forall host, hit | host in hosts && IsPopupHost(g, mains, host) && hit in PopupMatches(g, rules, host) :: hit.0 !in done
    ensures var a' := ApplyPopups(a, g, rules, mains, hosts);
            PassFits(g, rules, mains, a'.store, a'.log, done')
    decreases hosts
  {
    if hosts == [] {
      done' := done;
    } else {
      var host, rest := hosts[0], hosts[1..];
      assert host in hosts;
      if IsPopupHost(g, mains, host) {
        var all := Descendants(g, host, rules.popupSearchDepth);
        var hits := PopupMatches(g, rules, host);
        MatchingHitsKept(g, rules, all);
        DescendantsOnceInOrder(g, host, rules.popupSearchDepth);
        MatchesFit(g, rules, mains, a, done, host, hits);
        forall other, hit | other in rest && IsPopupHost(g, mains, other) && hit in PopupMatches(g, rules, other)
          ensures hit.0 !in done + HitHandles(hits)
        {
          MatchesApart(g, rules, host, other, hit);
          assert other in hosts;
        }
        done' := PopupsFit(g, rules, mains, ApplyMatches(a, g, rules, g.nodes[host], hits), done + HitHandles(hits), rest);
      } else {
        done' := PopupsFit(g, rules, mains, a, done, rest);
      }
    }
  }

  lemma MatchesApart(g: WindowGraph, rules: Rules, host: Hwnd, other: Hwnd, hit: Hit)
    requires Forest(g) && host != other && hit in PopupMatches(g, rules, other)
    requires host in g.nodes && g.nodes[host].structuralParent.None?
    requires other in g.nodes && g.nodes[other].structuralParent.None?
    ensures hit.0 !in HitHandles(PopupMatches(g, rules, host))
  {
    MatchIsDescendant(g, rules, other, hit);
    if hit.0 in HitHandles(PopupMatches(g, rules, host)) {
      var twin :| twin in PopupMatches(g, rules, host) && twin.0 == hit.0;
      MatchIsDescendant(g, rules, host, twin);
      OneRoot(g, host, other, hit.0, twin.1, hit.1);
    }
  }

  lemma MatchIsDescendant(g: WindowGraph, rules: Rules, host: Hwnd, hit: Hit)
    requires hit in PopupMatches(g, rules, host)
    ensures hit.0 in g.nodes && 1 <= hit.1 && Reach(g, host, hit.0, hit.1)
  {
    MatchingHitsKept(g, rules, Descendants(g, host, rules.popupSearchDepth));
    DescendantsArePaths(g, host, rules.popupSearchDepth, hit.0, hit.1);
  }

  // ---------------------------------------------------------------- the whole pass

  lemma TopLevelIs(g: WindowGraph)
    ensures Ascending(TopLevel(g))
    ensures forall h :: h in TopLevel(g) <==> h in g.nodes && g.nodes[h].structuralParent.None? && g.nodes[h].pid in g.pids
  {
    SortedSeqSorts(set h | h in g.nodes && g.nodes[h].structuralParent.None? && g.nodes[h].pid in g.pids);
  }

  /** A popup match is neither a child of a main window nor a top-level window. */
  lemma MatchIsNew(g: WindowGraph, rules: Rules, mains: seq<Hwnd>, host: Hwnd, hit: Hit)
    requires Forest(g) && hit in PopupMatches(g, rules, host)
    requires host in g.nodes && host !in mains
    requires forall m | m in mains :: m in g.nodes && g.nodes[m].structuralParent.None?
    ensures hit.0 in g.nodes && g.nodes[hit.0].structuralParent.Some? && hit.0 !in ChildrenOfAll(g, mains)
  {
    MatchIsDescendant(g, rules, host, hit);
    var q := ParentBelow(g, host, hit.0, hit.1);
    if hit.0 in ChildrenOfAll(g, mains) {
      var m :| m in mains && hit.0 in g.ChildrenOf(m);
      OneParent(g, m, q, hit.0);
    }
  }

  /** The tree parent of a descendant is the root or a window with a tree parent of its own. */
  lemma ParentBelow(g: WindowGraph, root: Hwnd, h: Hwnd, d: nat) returns (q: Hwnd)
    requires Forest(g) && d > 0 && Reach(g, root, h, d)
    ensures h in g.ChildrenOf(q)
    ensures q == root || (q in g.nodes && g.nodes[q].structuralParent.Some?)
  {
    q := LastEdge(g, root, h, d);
    if d > 1 {
      var p := LastEdge(g, root, q, d - 1);
    }
  }

  /** The invariant holds at the end of the apply pass. */
  lemma ApplyFits(g: WindowGraph, settings: Settings, rules: Rules, before: States) returns (done: set<Hwnd>)
    requires Forest(g)
    ensures var a := Apply(g, settings, rules, before);
            PassFits(g, rules, Members(ConfirmedMains(g, rules)), a.store, a.log, done)
  {
    TopLevelIs(g);
    var mainSeq := ConfirmedMains(g, rules);
    var mains := Members(mainSeq);
    FilteredKeeps(TopLevel(g), h => IsConfirmedMain(g, rules, h));
    var candidates := Candidates(g, rules, mains);
    FilteredKeeps(TopLevel(g), h => IsCandidate(g, rules, mains, h));
    var a0 := Pass(Store(before, {}, []), EMPTY_LOG);
    MainsFit(g, settings, rules, mains, a0, {}, mainSeq);
    var a1 := ApplyMains(a0, g, settings, rules, mainSeq);
    var kids := ChildrenOfAll(g, mainSeq);
    assert {} + kids == kids;
    done := RestFits(g, rules, mainSeq, a1, candidates, kids);
  }

  lemma RestFits(g: WindowGraph, rules: Rules, mainSeq: seq<Hwnd>, a: Pass, candidates: seq<Hwnd>, kids: set<Hwnd>)
    returns (done: set<Hwnd>)
    requires Forest(g) && kids == ChildrenOfAll(g, mainSeq)
    requires forall m | m in mainSeq :: m in g.nodes && g.nodes[m].structuralParent.None?
    requires PassFits(g, rules, Members(mainSeq), a.store, a.log, kids)
    requires Ascending(candidates) && forall h | h in candidates :: LegacyCandidate(g, rules, Members(mainSeq), h)
    ensures var a2 := ApplyCandidates(a, g, rules, candidates);
            var a3 := ApplyPopups(PopupPass(a2.store, a2.log, {}), g, rules, Members(mainSeq), TopLevel(g));
            PassFits(g, rules, Members(mainSeq), a3.store, a3.log, done)
  {
    TopLevelIs(g);
    var mains := Members(mainSeq);
    forall h | h in candidates ensures h !in kids {
      assert forall m | m in mainSeq :: h !in g.ChildrenOf(m);
    }
    CandidatesFit(g, rules, mains, a, kids, candidates);
    var a2 := ApplyCandidates(a, g, rules, candidates);
    forall host, hit | host in TopLevel(g) && IsPopupHost(g, mains, host) && hit in PopupMatches(g, rules, host)
      ensures hit.0 !in kids + Members(candidates)
    {
      MatchIsNew(g, rules, mainSeq, host, hit);
    }
    done := PopupsFit(g, rules, mains, PopupPass(a2.store, a2.log, {}), kids + Members(candidates), TopLevel(g));
  }
}

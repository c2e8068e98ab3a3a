/** A tick without evidence ends a streak: behind every weak confirmation the window showed its evidence in
    each tick in which it was looked at. */
module Misses {
  import opened Model
  import opened Ordering
  import opened Search
  import opened Signals
  import opened Evaluate
  import opened Evidence
  import opened LockStep
  import opened Cells
  import opened Law
  import Verdicts
  import opened Streaks

  /** The apply pass asks something about this window. */
  predicate LookedAt(g: WindowGraph, settings: Settings, rules: Rules, h: Hwnd) {
    || (exists m :: m in ConfirmedMains(g, rules) && AsksChild(g, settings, rules, m, h))
    || (h in TopLevel(g) && IsCandidate(g, rules, MainSet(g, rules), h))
    || (exists host :: host in TopLevel(g) && PopupBelow(g, rules, host, h))
  }

  predicate AsksChild(g: WindowGraph, settings: Settings, rules: Rules, m: Hwnd, h: Hwnd) {
    ChildOf(g, rules, m, h) && (EvaShape(g, rules, m, h) || LookedAtForBanner(g, settings, h))
  }

  predicate NoEvidence(g: WindowGraph, settings: Settings, rules: Rules, h: Hwnd) {
    !Shows(g, settings, rules, h, Close) && !Shows(g, settings, rules, h, Hide) && !Shows(g, settings, rules, h, DismissPopup)
  }

  lemma ChildShowsNothing(g: WindowGraph, settings: Settings, rules: Rules, m: Hwnd, h: Hwnd)
    requires ChildOf(g, rules, m, h) && NoEvidence(g, settings, rules, h)
    ensures !ShowsEmptyEva(g, settings, rules, m, h) && !ShowsBanner(g, settings, rules, m, h)
  {
    var mains := ConfirmedMains(g, rules);
    var i :| 0 <= i < |mains| && mains[i] == m;
    var k :| 0 <= k < |g.ChildrenOf(m)| && g.ChildrenOf(m)[k] == h;
    assert InList(g.ChildrenOf(m), h);
    assert !MainChildShows(g, settings, rules, mains[i], h, Close) && !MainChildShows(g, settings, rules, mains[i], h, Hide);
  }

  lemma CandidateShowsNothing(g: WindowGraph, settings: Settings, rules: Rules, h: Hwnd)
    requires h in TopLevel(g) && h in g.nodes && g.nodes[h].pid in g.pids && IsCandidate(g, rules, MainSet(g, rules), h)
    requires NoEvidence(g, settings, rules, h)
    ensures LegacySignatureKind(g, rules, h).NoLegacy?
  {
    CandidatesAscend(g, rules);
    var candidates := Candidates(g, rules, MainSet(g, rules));
    var i :| 0 <= i < |candidates| && candidates[i] == h;
    assert InList(candidates, h);
  }

  lemma PopupShows(g: WindowGraph, settings: Settings, rules: Rules, host: Hwnd, h: Hwnd)
    requires Forest(g) && PopupBelow(g, rules, host, h) && !Spared(rules, g.nodes[host])
    ensures Shows(g, settings, rules, h, DismissPopup)
  {
    MatchIsApart(g, rules, host, h);
    GuardMeans(rules, g.nodes[host]);
    var tops, hits := TopLevel(g), PopupMatches(g, rules, host);
    var i :| 0 <= i < |tops| && tops[i] == host;
    var j :| 0 <= j < |hits| && hits[j].0 == h;
    var id := g.nodes[h].Identity();
    assert HitDecides(g, rules, g.nodes[host], hits[j], id, DismissPopup);
    assert HostDecides(g, rules, MainSet(g, rules), tops[i], id, DismissPopup);
  }

  /** A window that is looked at and shows no evidence has no streak afterwards. */
  lemma MissEndsStreak(g: WindowGraph, settings: Settings, rules: Rules, states: States, h: Hwnd)
    requires Forest(g) && h in g.nodes && LookedAt(g, settings, rules, h) && NoEvidence(g, settings, rules, h)
    ensures StreakIn(Apply(g, settings, rules, states).store.states, g.nodes[h].Identity()) == 0
  {
    var id := g.nodes[h].Identity();
    if m :| m in ConfirmedMains(g, rules) && AsksChild(g, settings, rules, m, h) {
      ChildrenAreJudged(g, settings, rules, states, m, h);
      ChildShowsNothing(g, settings, rules, m, h);
    } else if host :| host in TopLevel(g) && PopupBelow(g, rules, host, h) {
      PopupsAreJudged(g, settings, rules, states, host, h);
      if !Spared(rules, g.nodes[host]) {
        PopupShows(g, settings, rules, host, h);
      }
    } else {
      Verdicts.TopLevelIs(g);
      TopLevelsAreJudged(g, settings, rules, states, h);
      CandidateShowsNothing(g, settings, rules, h);
    }
    assert Outcome(g, settings, rules, states, id).state == StateIn(Apply(g, settings, rules, states).store.states, id);
  }

  // ---------------------------------------------------------------- over sessions

  /** Every tick on the trail is at least `since`. */
  predicate TrailFrom(s: Session, id: WindowIdentity, since: nat) {
    since <= s.tick && forall t | t in Trail(s.history, id) :: since <= t
  }

  lemma {:induction false} StampFrom(history: seq<Entry>, tick: nat, vs: seq<Verdict>, id: WindowIdentity)
    ensures forall t | t in Trail(history + Stamp(tick, vs), id) :: t in Trail(history, id) || t == tick
    decreases vs
  {
    if vs == [] {
      assert history + Stamp(tick, vs) == history;
    } else {
      StampOne(history, tick, vs);
      StampFrom(history, tick, vs[..|vs| - 1], id);
    }
  }

  lemma {:induction false} TrailStaysFrom(s: Session, rules: Rules, steps: seq<Step>, id: WindowIdentity, since: nat)
    requires TrailFrom(s, id, since)
    ensures TrailFrom(Run(s, rules, steps), id, since)
    decreases steps
  {
    if steps != [] {
      var s' := After(s, rules, steps[0]);
      match steps[0] {
        case Evaluate(g, settings) =>
          StampFrom(s.history, s.tick, Apply(g, settings, rules, s.states).store.verdicts, id);
        case Forget(gone) =>
          assert s'.history[..|s'.history| - 1] == s.history;
      }
      TrailStaysFrom(s', rules, steps[1..], id, since);
    }
  }

  lemma {:induction false} RunSplits(s: Session, rules: Rules, a: seq<Step>, b: seq<Step>)
    ensures Run(s, rules, a + b) == Run(Run(s, rules, a), rules, b)
    decreases a
  {
    if a == [] {
      assert a + b == b;
    } else {
      assert (a + b)[1..] == a[1..] + b;
      RunSplits(After(s, rules, a[0]), rules, a[1..], b);
    }
  }

  /** In some step of the run the window was looked at and showed nothing. */
  predicate MissedIn(rules: Rules, step: Step, id: WindowIdentity) {
    && step.Evaluate? && Forest(step.g) && id.hwnd in step.g.nodes && step.g.nodes[id.hwnd].Identity() == id
    && LookedAt(step.g, step.settings, rules, id.hwnd) && NoEvidence(step.g, step.settings, rules, id.hwnd)
  }

  /** Such a step leaves the window without a trail. */
  lemma MissLeavesNoTrail(s: Session, rules: Rules, step: Step, id: WindowIdentity)
    requires SessionFits(s) && MissedIn(rules, step, id)
    ensures TrailFrom(After(s, rules, step), id, s.tick + 1)
  {
    var s' := After(s, rules, step);
    StepFits(s, rules, step);
    MissEndsStreak(step.g, step.settings, rules, s.states, id.hwnd);
    assert StreakIn(s'.states, id) == |Trail(s'.history, id)|;
  }

  lemma RunThrough(s: Session, rules: Rules, steps: seq<Step>, i: nat)
    requires i < |steps|
    ensures Run(s, rules, steps) == Run(After(Run(s, rules, steps[..i]), rules, steps[i]), rules, steps[i + 1..])
  {
    assert steps == steps[..i] + steps[i..] && steps[i..][0] == steps[i] && steps[i..][1..] == steps[i + 1..];
    RunSplits(s, rules, steps[..i], steps[i..]);
  }

  /** No trail reaches back to a tick in which its window was looked at without evidence, so between the
      first and the last match behind a confirmation the window showed its evidence whenever it was looked at. */
  lemma TrailsAvoidMisses(rules: Rules, steps: seq<Step>, i: nat, id: WindowIdentity)
    requires i < |steps| && MissedIn(rules, steps[i], id)
    ensures forall t | t in Trail(Run(START, rules, steps).history, id) :: t > Run(START, rules, steps[..i]).tick
  {
    var s := Run(START, rules, steps[..i]);
    StreakIsTrail(START, rules, steps[..i]);
    MissLeavesNoTrail(s, rules, steps[i], id);
    TrailStaysFrom(After(s, rules, steps[i]), rules, steps[i + 1..], id, s.tick + 1);
    RunThrough(START, rules, steps, i);
  }
}

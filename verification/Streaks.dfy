/** Weak verdicts over whole runs: a window is hidden or closed on weak evidence only after it was
    matched in enough different ticks with no miss in between. */
module Streaks {
  import opened Model
  import opened Ordering
  import opened Search
  import opened Signals
  import opened Evaluate
  import opened LockStep
  import opened Verdicts
  import opened Overlap

  /** What the worker's memory of candidates goes through: verdicts, and identities pruned or cleared. */
  datatype Entry = Judged(tick: nat, verdict: Verdict) | Forgotten(gone: set<WindowIdentity>)

  datatype Session = Session(states: States, history: seq<Entry>, tick: nat)

  datatype Step = Evaluate(g: WindowGraph, settings: Settings) | Forget(gone: set<WindowIdentity>)

  function Stamp(tick: nat, vs: seq<Verdict>): seq<Entry> {
    seq(|vs|, i requires 0 <= i < |vs| => Judged(tick, vs[i]))
  }

  function After(s: Session, rules: Rules, step: Step): Session {
    match step
    case Evaluate(g, settings) =>
      var a := Apply(g, settings, rules, s.states);
      Session(a.store.states, s.history + Stamp(s.tick, a.store.verdicts), s.tick + 1)
    case Forget(gone) => Session(s.states - gone, s.history + [Forgotten(gone)], s.tick)
  }

  function Run(s: Session, rules: Rules, steps: seq<Step>): Session
    decreases steps
  {
    if steps == [] then s else Run(After(s, rules, steps[0]), rules, steps[1..])
  }

  predicate Allowed(step: Step) { step.Evaluate? ==> Forest(step.g) }

  const START := Session(map[], [], 0)

  predicate About(e: Entry, id: WindowIdentity) {
    match e
    case Judged(_, v) => v.identity == id
    case Forgotten(gone) => id in gone
  }

  /** The ticks of the matched verdicts of a window since it was last missed or forgotten. */
  function Trail(history: seq<Entry>, id: WindowIdentity): seq<nat> {
    if history == [] then []
    else
      var last, rest := history[|history| - 1], history[..|history| - 1];
      if !About(last, id) then Trail(rest, id)
      else if last.Judged? && last.verdict.decision.Matched() then Trail(rest, id) + [last.tick]
      else []
  }

  predicate Increasing(ticks: seq<nat>) { forall i, j | 0 <= i < j < |ticks| :: ticks[i] < ticks[j] }

  /** The state map knows the length of every trail. */
  ghost predicate SessionFits(s: Session) { forall id :: StreakIn(s.states, id) == |Trail(s.history, id)| }

  /** The trail's ticks are distinct, in order, and past. */
  predicate Distinct(s: Session, id: WindowIdentity) {
    Increasing(Trail(s.history, id)) && forall t | t in Trail(s.history, id) :: t < s.tick
  }

  /** Appending the verdicts of one tick extends the trail as they say. */
  lemma {:induction false} StampTrail(before: States, history: seq<Entry>, tick: nat, vs: seq<Verdict>, id: WindowIdentity)
    requires StreakIn(before, id) == |Trail(history, id)|
    ensures |Trail(history + Stamp(tick, vs), id)| == RunLength(before, vs, id)
    decreases vs
  {
    if vs == [] {
      assert history + Stamp(tick, vs) == history;
    } else {
      StampOne(history, tick, vs);
      StampTrail(before, history, tick, vs[..|vs| - 1], id);
    }
  }

  lemma StampOne(history: seq<Entry>, tick: nat, vs: seq<Verdict>)
    requires vs != []
    ensures var all := history + Stamp(tick, vs);
            all != [] && all[..|all| - 1] == history + Stamp(tick, vs[..|vs| - 1]) && all[|all| - 1] == Judged(tick, vs[|vs| - 1])
  {
  }

  predicate MatchedIn(vs: seq<Verdict>, h: Hwnd) { exists i :: 0 <= i < |vs| && MatchFor(vs[i], h) }

  /** As long as no window is matched twice in the tick, the trail gains one entry at most. */
  lemma {:induction false} StampApart(history: seq<Entry>, tick: nat, vs: seq<Verdict>, id: WindowIdentity)
    requires Increasing(Trail(history, id)) && forall t | t in Trail(history, id) :: t < tick
    requires !MatchedTwice(vs, id.hwnd)
    ensures var trail := Trail(history + Stamp(tick, vs), id);
            && Increasing(trail)
            && (forall t | t in trail :: t <= tick)
            && (!MatchedIn(vs, id.hwnd) ==> tick !in trail)
    decreases vs
  {
    if vs == [] {
      assert history + Stamp(tick, vs) == history;
    } else {
      var last, rest := vs[|vs| - 1], vs[..|vs| - 1];
      StampOne(history, tick, vs);
      StillOnce(vs, id.hwnd);
      StampApart(history, tick, rest, id);
      if last.identity == id && last.decision.Matched() {
        AppendIncreasing(Trail(history + Stamp(tick, rest), id), tick);
      }
    }
  }

  lemma StillOnce(vs: seq<Verdict>, h: Hwnd)
    requires vs != [] && !MatchedTwice(vs, h)
    ensures var rest := vs[..|vs| - 1];
            && !MatchedTwice(rest, h)
            && (MatchedIn(rest, h) ==> MatchedIn(vs, h) && !MatchFor(vs[|vs| - 1], h))
            && (MatchFor(vs[|vs| - 1], h) ==> MatchedIn(vs, h))
  {
    var rest := vs[..|vs| - 1];
    assert forall i | 0 <= i < |rest| :: rest[i] == vs[i];
    if MatchedIn(rest, h) {
      var i :| 0 <= i < |rest| && MatchFor(rest[i], h);
      assert MatchFor(vs[i], h);
    }
  }

  lemma AppendIncreasing(ticks: seq<nat>, tick: nat)
    requires Increasing(ticks) && tick !in ticks && forall t | t in ticks :: t <= tick
    ensures Increasing(ticks + [tick])
  {
    assert forall i | 0 <= i < |ticks| :: ticks[i] in ticks;
  }

  lemma StepFits(s: Session, rules: Rules, step: Step)
    requires SessionFits(s)
    ensures SessionFits(After(s, rules, step))
  {
    var s' := After(s, rules, step);
    match step
    case Evaluate(g, settings) =>
      EvaluationKeepsStep(g, settings, rules, s.states);
      var a := Apply(g, settings, rules, s.states);
      forall id ensures StreakIn(s'.states, id) == |Trail(s'.history, id)| {
        assert StreakIn(s.states, id) == |Trail(s.history, id)|;
        StampTrail(s.states, s.history, s.tick, a.store.verdicts, id);
      }
    case Forget(gone) =>
      forall id ensures StreakIn(s'.states, id) == |Trail(s'.history, id)| {
        assert StreakIn(s.states, id) == |Trail(s.history, id)|;
        assert s'.history[..|s'.history| - 1] == s.history;
      }
  }

  /** In every reachable state, under any rules and on any graphs, the streak of a window is the length of
      its trail. */
  lemma {:induction false} StreakIsTrail(s: Session, rules: Rules, steps: seq<Step>)
    requires SessionFits(s)
    ensures SessionFits(Run(s, rules, steps))
    decreases steps
  {
    if steps != [] {
      StepFits(s, rules, steps[0]);
      StreakIsTrail(After(s, rules, steps[0]), rules, steps[1..]);
    }
  }

  /** The step looks at no main window of which `h` is a child with both shapes. */
  predicate Unambiguous(rules: Rules, step: Step, h: Hwnd) {
    step.Evaluate? ==> !Overlaps(step.g, step.settings, rules, h)
  }

  /** A window that never has both shapes at once is matched in different ticks. */
  lemma {:induction false} TrailIsDistinct(s: Session, rules: Rules, steps: seq<Step>, id: WindowIdentity)
    requires Distinct(s, id)
    requires forall step | step in steps :: Allowed(step) && Unambiguous(rules, step, id.hwnd)
    ensures Distinct(Run(s, rules, steps), id)
    decreases steps
  {
    if steps != [] {
      var step, s' := steps[0], After(s, rules, steps[0]);
      assert step in steps;
      match step {
        case Evaluate(g, settings) =>
          MatchedTwiceExactlyIfOverlapping(g, settings, rules, s.states, id.hwnd);
          StampApart(s.history, s.tick, Apply(g, settings, rules, s.states).store.verdicts, id);
        case Forget(gone) =>
          assert s'.history[..|s'.history| - 1] == s.history;
      }
      TrailIsDistinct(s', rules, steps[1..], id);
    }
  }

  /** The k-th verdict of this tick ends a trail of matches in enough different ticks. */
  predicate EndsLongTrail(s: Session, rules: Rules, vs: seq<Verdict>, k: nat)
    requires k < |vs|
  {
    var trail := Trail(s.history + Stamp(s.tick, vs[..k + 1]), vs[k].identity);
    Increasing(trail) && |trail| >= Confirmations(rules.weakSignalConfirmTicks) && trail[|trail| - 1] == s.tick
  }

  /** The same for one tick in a session whose books are in order. */
  lemma WeakVerdictEndsTrail(s: Session, rules: Rules, g: WindowGraph, settings: Settings, vs: seq<Verdict>, k: nat)
    requires Forest(g) && SessionFits(s) && vs == Apply(g, settings, rules, s.states).store.verdicts
    requires k < |vs| && vs[k].confirmed && vs[k].decision.strength.Weak?
    requires Distinct(s, vs[k].identity) && !Overlaps(g, settings, rules, vs[k].identity.hwnd)
    ensures EndsLongTrail(s, rules, vs, k)
  {
    MatchedTwiceExactlyIfOverlapping(g, settings, rules, s.states, vs[k].identity.hwnd);
    PrefixOnce(vs, k + 1, vs[k].identity.hwnd);
    WeakRunIsLong(g, settings, rules, s.states, k);
    assert StreakIn(s.states, vs[k].identity) == |Trail(s.history, vs[k].identity)|;
    MatchEndsTrail(s.states, s.history, s.tick, vs[..k + 1]);
  }

  /** A weak verdict acted upon in some tick: its window was matched in at least the configured number
      of different ticks, this one included, and neither missed nor forgotten since the first of them. */
  lemma WeakVerdictNeedsDistinctTicks(rules: Rules, steps: seq<Step>, g: WindowGraph, settings: Settings, k: nat)
    requires Forest(g) && forall step | step in steps :: Allowed(step)
    requires var vs := Apply(g, settings, rules, Run(START, rules, steps).states).store.verdicts;
             && k < |vs| && vs[k].confirmed && vs[k].decision.strength.Weak?
             && forall step | step in steps + [Evaluate(g, settings)] :: Unambiguous(rules, step, vs[k].identity.hwnd)
    ensures var s := Run(START, rules, steps);
            EndsLongTrail(s, rules, Apply(g, settings, rules, s.states).store.verdicts, k)
  {
    var s := Run(START, rules, steps);
    var vs := Apply(g, settings, rules, s.states).store.verdicts;
    var all := steps + [Evaluate(g, settings)];
    assert forall step | step in steps :: step in all;
    assert Evaluate(g, settings) in all;
    StreakIsTrail(START, rules, steps);
    TrailIsDistinct(START, rules, steps, vs[k].identity);
    WeakVerdictEndsTrail(s, rules, g, settings, vs, k);
  }

  lemma WeakRunIsLong(g: WindowGraph, settings: Settings, rules: Rules, states: States, k: nat)
    requires var vs := Apply(g, settings, rules, states).store.verdicts;
             k < |vs| && vs[k].confirmed && vs[k].decision.strength.Weak?
    ensures var vs := Apply(g, settings, rules, states).store.verdicts;
            vs[k].decision.Matched() && RunLength(states, vs[..k + 1], vs[k].identity) >= Confirmations(rules.weakSignalConfirmTicks)
  {
    EvaluationKeepsStep(g, settings, rules, states);
    assert ConfirmedAt(states, Apply(g, settings, rules, states).store.verdicts, k, rules.weakSignalConfirmTicks);
  }

  lemma PrefixOnce(vs: seq<Verdict>, n: nat, h: Hwnd)
    requires n <= |vs| && !MatchedTwice(vs, h)
    ensures !MatchedTwice(vs[..n], h)
  {
    assert forall i | 0 <= i < n :: vs[..n][i] == vs[i];
  }

  /** A match recorded last ends its window's trail with the current tick. */
  lemma MatchEndsTrail(before: States, history: seq<Entry>, tick: nat, vs: seq<Verdict>)
    requires vs != [] && vs[|vs| - 1].decision.Matched() && !MatchedTwice(vs, vs[|vs| - 1].identity.hwnd)
    requires var trail := Trail(history, vs[|vs| - 1].identity);
             StreakIn(before, vs[|vs| - 1].identity) == |trail| && Increasing(trail) && forall t | t in trail :: t < tick
    ensures var trail := Trail(history + Stamp(tick, vs), vs[|vs| - 1].identity);
            && |trail| == RunLength(before, vs, vs[|vs| - 1].identity) > 0
            && Increasing(trail) && trail[|trail| - 1] == tick
  {
    StampTrail(before, history, tick, vs, vs[|vs| - 1].identity);
    StampApart(history, tick, vs, vs[|vs| - 1].identity);
    StampOne(history, tick, vs);
  }

  function TicksOf(history: seq<Entry>, id: WindowIdentity): seq<nat> {
    if history == [] then []
    else
      var last, rest := history[|history| - 1], history[..|history| - 1];
      TicksOf(rest, id) + if About(last, id) && last.Judged? then [last.tick] else []
  }

  lemma TicksOfLast(history: seq<Entry>, start: nat, id: WindowIdentity)
    requires start < |history|
    ensures var last := history[|history| - 1];
            TicksOf(history[start..], id) == TicksOf(history[..|history| - 1][start..], id) + if About(last, id) && last.Judged? then [last.tick] else []
  {
    assert history[start..][..|history| - start - 1] == history[..|history| - 1][start..];
  }

  /** What a trail is: from some point on, every entry about the window is a match, and these are its ticks. */
  lemma {:induction false} TrailMeans(history: seq<Entry>, id: WindowIdentity) returns (start: nat)
    ensures start <= |history|
    ensures Trail(history, id) == TicksOf(history[start..], id)
    ensures forall j | start <= j < |history| && About(history[j], id) :: history[j].Judged? && history[j].verdict.decision.Matched()
    ensures start == 0 || (About(history[start - 1], id) && !(history[start - 1].Judged? && history[start - 1].verdict.decision.Matched()))
    decreases history
  {
    if history == [] {
      start := 0;
    } else {
      var last, rest := history[|history| - 1], history[..|history| - 1];
      start := TrailMeans(rest, id);
      if About(last, id) && !(last.Judged? && last.verdict.decision.Matched()) {
        start := |history|;
      } else {
        TicksOfLast(history, start, id);
      }
    }
  }

  /** A target that is not part of an allowed popup has a confirmed verdict. */
  lemma TargetHasVerdict(g: WindowGraph, settings: Settings, rules: Rules, states: States, h: Hwnd) returns (k: nat)
    requires Forest(g) && !PopupPart(g, rules, Members(ConfirmedMains(g, rules)), h)
    requires var plan := PlanOf(Apply(g, settings, rules, states).log); h in plan.hide || h in plan.close
    ensures var vs := Apply(g, settings, rules, states).store.verdicts;
            k < |vs| && vs[k].confirmed && vs[k].identity.hwnd == h && vs[k].decision.Matched()
  {
    var a := Apply(g, settings, rules, states);
    var done := ApplyFits(g, settings, rules, states);
    SortedSeqSorts(Members(a.log.hides));
    SortedSeqSorts(Members(a.log.closes));
    assert Confirmed(a.store.verdicts, h, Hide) || Confirmed(a.store.verdicts, h, Close);
    var v :| v in a.store.verdicts && v.confirmed && v.identity.hwnd == h;
    k :| k < |a.store.verdicts| && a.store.verdicts[k] == v;
    EvaluationKeepsStep(g, settings, rules, states);
    assert ConfirmedAt(states, a.store.verdicts, k, rules.weakSignalConfirmTicks);
  }

  /** A window planned to be hidden or closed in some tick is part of an allowed popup, or was strongly
      matched in this tick, or has a long enough trail of matches in different ticks ending now. */
  lemma EveryTargetIsJustified(rules: Rules, steps: seq<Step>, g: WindowGraph, settings: Settings, h: Hwnd)
    requires Forest(g) && forall step | step in steps :: Allowed(step)
    requires forall step | step in steps + [Evaluate(g, settings)] :: Unambiguous(rules, step, h)
    requires var plan := PlanOf(Apply(g, settings, rules, Run(START, rules, steps).states).log);
             h in plan.hide || h in plan.close
    ensures var s := Run(START, rules, steps);
            var vs := Apply(g, settings, rules, s.states).store.verdicts;
            || PopupPart(g, rules, Members(ConfirmedMains(g, rules)), h)
            || exists k: nat | k < |vs| ::
                 vs[k].confirmed && vs[k].identity.hwnd == h && (vs[k].decision.strength.Strong? || EndsLongTrail(s, rules, vs, k))
  {
    var s := Run(START, rules, steps);
    if !PopupPart(g, rules, Members(ConfirmedMains(g, rules)), h) {
      var k := TargetHasVerdict(g, settings, rules, s.states, h);
      if Apply(g, settings, rules, s.states).store.verdicts[k].decision.strength.Weak? {
        WeakVerdictNeedsDistinctTicks(rules, steps, g, settings, k);
      }
    }
  }
}

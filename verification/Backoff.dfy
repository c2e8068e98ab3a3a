/** How often a window that cannot be restored is retried. */
module Backoff {
  import opened Model
  import opened Arithmetic
  import opened Desktop
  import opened Engine
  import opened UndoRuns
  import opened Drains

  /** One unmatched tick whose restore, if one is due, fails. The second component says whether one was tried. */
  function FailTick(st: StaleState): (StaleState, bool) {
    var (st1, due) := CountMiss(st);
    if due then (CountFailure(st1), true) else (st1, false)
  }

  function FailTicks(st: StaleState, n: nat): StaleState {
    if n == 0 then st else FailTick(FailTicks(st, n - 1)).0
  }

  /** Restores tried during `n` such ticks. */
  function Attempts(st: StaleState, n: nat): nat {
    if n == 0 then 0 else Attempts(st, n - 1) + if FailTick(FailTicks(st, n - 1)).1 then 1 else 0
  }

  predicate Bounded(st: StaleState) {
    st.missStreak <= U32_MAX && st.attempts <= U32_MAX && st.cooldown <= RESTORE_GIVEUP_COOLDOWN_TICKS
  }

  lemma {:induction false} Compose(st: StaleState, m: nat, n: nat)
    ensures FailTicks(FailTicks(st, m), n) == FailTicks(st, m + n)
    ensures Attempts(st, m + n) == Attempts(st, m) + Attempts(FailTicks(st, m), n)
  {
    if n != 0 {
      Compose(st, m, n - 1);
    }
  }

  lemma {:induction false} FailTicksBounded(st: StaleState, n: nat)
    requires Bounded(st)
    ensures Bounded(FailTicks(st, n))
  {
    if n != 0 {
      FailTicksBounded(st, n - 1);
    }
  }

  /** A cooling window is left alone. */
  lemma {:induction false} Cool(st: StaleState, k: nat)
    requires Bounded(st) && 1 <= st.missStreak && k <= st.cooldown
    ensures FailTicks(st, k) == StaleState(Min(st.missStreak + k, U32_MAX), st.attempts, st.cooldown - k, st.warned)
    ensures Attempts(st, k) == 0
  {
    if k != 0 {
      Cool(st, k - 1);
    }
  }

  /** The next attempt comes exactly when the cooldown has run out. */
  lemma NextAttempt(st: StaleState)
    requires Bounded(st) && 1 <= st.missStreak
    ensures FailTicks(st, st.cooldown + 1)
         == CountFailure(st.(missStreak := Min(st.missStreak + st.cooldown + 1, U32_MAX)))
    ensures Attempts(st, st.cooldown + 1) == 1
  {
    Cool(st, st.cooldown);
  }

  /** The first five attempts, at ticks 2, 4, 7, 12 and 21. */
  lemma FirstFive()
    ensures FailTicks(FRESH, 21) == StaleState(21, 5, RESTORE_GIVEUP_COOLDOWN_TICKS, true)
    ensures Attempts(FRESH, 21) == 5 && Attempts(FRESH, 20) == 4 && Attempts(FRESH, 11) == 3
    ensures Attempts(FRESH, 6) == 2 && Attempts(FRESH, 3) == 1 && Attempts(FRESH, 1) == 0
  {
    assert FailTicks(FRESH, 1) == StaleState(1, 0, 0, false) && Attempts(FRESH, 1) == 0;
    Next(1, StaleState(1, 0, 0, false));
    Next(2, StaleState(2, 1, 1, true));
    Next(4, StaleState(4, 2, 2, true));
    Next(7, StaleState(7, 3, 4, true));
    Next(12, StaleState(12, 4, 8, true));
  }

  lemma Next(n: nat, st: StaleState)
    requires FailTicks(FRESH, n) == st && Bounded(st) && 1 <= st.missStreak
    ensures var m := n + st.cooldown + 1;
            && FailTicks(FRESH, m) == CountFailure(st.(missStreak := Min(st.missStreak + st.cooldown + 1, U32_MAX)))
            && Attempts(FRESH, m) == Attempts(FRESH, n) + 1
            && Attempts(FRESH, m - 1) == Attempts(FRESH, n)
  {
    NextAttempt(st);
    Cool(st, st.cooldown);
    Compose(FRESH, n, st.cooldown + 1);
    Compose(FRESH, n, st.cooldown);
  }

  lemma {:induction false} LongCooldowns(q: nat)
    ensures var st := FailTicks(FRESH, 21 + 301 * q);
            && Bounded(st) && 2 <= st.missStreak && RESTORE_MAX_ATTEMPTS <= st.attempts
            && st.cooldown == RESTORE_GIVEUP_COOLDOWN_TICKS
            && Attempts(FRESH, 21 + 301 * q) == 5 + q
  {
    if q == 0 {
      FirstFive();
    } else {
      LongCooldowns(q - 1);
      Next(21 + 301 * (q - 1), FailTicks(FRESH, 21 + 301 * (q - 1)));
    }
  }

  lemma AttemptsInCooldown(q: nat, r: nat)
    requires r < 301
    ensures Attempts(FRESH, 21 + 301 * q + r) == 5 + q
  {
    var n := 21 + 301 * q;
    LongCooldowns(q);
    Cool(FailTicks(FRESH, n), r);
    Compose(FRESH, n, r);
  }

  /** Closed form: five quick attempts, then one every 301 ticks for ever. */
  lemma AttemptsClosedForm(n: nat)
    requires 21 <= n
    ensures Attempts(FRESH, n) == 5 + (n - 21) / 301
  {
    AttemptsInCooldown((n - 21) / 301, (n - 21) % 301);
  }

  // ---------------------------------------------------------------- the engine follows this machine

  function StateAt(e: EngineState, id: WindowIdentity): StaleState {
    if id in e.stale then e.stale[id] else FRESH
  }

  /** The two states agree on everything the engine remembers about this window. */
  ghost predicate SameAt(e: EngineState, e': EngineState, id: WindowIdentity) {
    && (id in e.snapshots <==> id in e'.snapshots)
    && (id in e.snapshots ==> e.snapshots[id] == e'.snapshots[id])
    && (id in e.stale <==> id in e'.stale)
    && StateAt(e, id) == StateAt(e', id)
  }

  lemma OtherVisit(e: EngineState, matched: set<WindowIdentity>, id: WindowIdentity, other: WindowIdentity)
    requires other != id
    ensures SameAt(e, StaleVisit(e, matched, other), id)
  {
  }

  lemma {:induction false} OtherVisits(e: EngineState, matched: set<WindowIdentity>, pending: seq<WindowIdentity>, id: WindowIdentity)
    requires id !in pending
    ensures SameAt(e, StalePass(e, matched, pending), id)
    decreases pending
  {
    if pending != [] {
      OtherVisit(e, matched, id, pending[0]);
      OtherVisits(StaleVisit(e, matched, pending[0]), matched, pending[1..], id);
    }
  }

  /** What one stale pass does to one window, wherever it stands in the order. */
  lemma {:induction false} StalePassOnOne(e: EngineState, matched: set<WindowIdentity>, pending: seq<WindowIdentity>, id: WindowIdentity)
    requires id in pending && (forall i, j | 0 <= i < j < |pending| :: pending[i] != pending[j])
    requires id in e.snapshots
    ensures var e' := StalePass(e, matched, pending);
            var (st, due) := CountMiss(StateAt(e, id));
            if id in matched then id in e'.snapshots && id !in e'.stale
            else if !due then id in e'.snapshots && id in e'.stale && e'.stale[id] == st
            else if id in e'.snapshots then id in e'.stale && e'.stale[id] == CountFailure(st)
            else id !in e'.stale
    decreases pending
  {
    var e1 := StaleVisit(e, matched, pending[0]);
    if pending[0] == id {
      OtherVisits(e1, matched, pending[1..], id);
    } else {
      OtherVisit(e, matched, id, pending[0]);
      assert forall i, j | 0 <= i < j < |pending[1..]| :: pending[1..][i] != pending[1..][j];
      StalePassOnOne(e1, matched, pending[1..], id);
    }
  }

  lemma {:induction false} PassSplits(e: EngineState, matched: set<WindowIdentity>, a: seq<WindowIdentity>, b: seq<WindowIdentity>)
    ensures StalePass(e, matched, a + b) == StalePass(StalePass(e, matched, a), matched, b)
    decreases a
  {
    if a == [] {
      assert a + b == b;
    } else {
      assert (a + b)[1..] == a[1..] + b;
      PassSplits(StaleVisit(e, matched, a[0]), matched, a[1..], b);
    }
  }

  /** The engine when the pass comes to its `i`-th window. */
  function WhenVisited(e: EngineState, matched: set<WindowIdentity>, pending: seq<WindowIdentity>, i: nat): EngineState
    requires i <= |pending|
  {
    StalePass(e, matched, pending[..i])
  }

  /** What is left of a held window after the pass, by what its own visit found: `there` says that the check
      saw the very window of the snapshot, `restored` that the calls then brought it back. */
  ghost predicate PassedOver(e: EngineState, e': EngineState, id: WindowIdentity, matched: bool, there: bool, restored: bool)
    requires id in e.snapshots
  {
    var (st, due) := CountMiss(StateAt(e, id));
    if matched then Kept(e, e', id) && id !in e'.stale
    else if !due then Kept(e, e', id) && id in e'.stale && e'.stale[id] == st
    else if there && !restored then Kept(e, e', id) && id in e'.stale && e'.stale[id] == CountFailure(st)
    else id !in e'.snapshots && id !in e'.stale
  }

  predicate Kept(e: EngineState, e': EngineState, id: WindowIdentity)
    requires id in e.snapshots
  {
    id in e'.snapshots && e'.snapshots[id] == e.snapshots[id]
  }

  /** What one stale pass does to every window, wherever it stands in the order and whatever the outside
      does: a due window that is gone at its check is forgotten and counts as no failure, and a failure is
      counted exactly for a window that was there and did not come back. */
  lemma StalePassExactly(e: EngineState, matched: set<WindowIdentity>, pending: seq<WindowIdentity>, i: nat)
    requires Keyed(e.snapshots) && i < |pending| && pending[i] in e.snapshots
    requires forall j, k | 0 <= j < k < |pending| :: pending[j] != pending[k]
    ensures var id, v := pending[i], WhenVisited(e, matched, pending, i);
            var d := v.desk.Looked(id.hwnd);
            && SameAt(e, v, id)
            && PassedOver(e, StalePass(e, matched, pending), id, id in matched, d.Matches(id), RestoreSnapshot(d, e.snapshots[id]).1)
  {
    var id, v := pending[i], WhenVisited(e, matched, pending, i);
    var v1 := StaleVisit(v, matched, id);
    OtherVisits(e, matched, pending[..i], id);
    OtherVisits(v1, matched, pending[i + 1..], id);
    PassThrough(e, matched, pending, i);
    VisitExactly(v, matched, id);
  }

  lemma PassThrough(e: EngineState, matched: set<WindowIdentity>, pending: seq<WindowIdentity>, i: nat)
    requires i < |pending|
    ensures StalePass(e, matched, pending)
         == StalePass(StaleVisit(WhenVisited(e, matched, pending, i), matched, pending[i]), matched, pending[i + 1..])
  {
    assert pending == pending[..i] + pending[i..] && pending[i..][0] == pending[i] && pending[i..][1..] == pending[i + 1..];
    PassSplits(e, matched, pending[..i], pending[i..]);
  }

  lemma VisitExactly(e: EngineState, matched: set<WindowIdentity>, id: WindowIdentity)
    requires id in e.snapshots && e.snapshots[id].identity == id
    ensures var d := e.desk.Looked(id.hwnd);
            PassedOver(e, StaleVisit(e, matched, id), id, id in matched, d.Matches(id), RestoreSnapshot(d, e.snapshots[id]).1)
  {
  }

  /** The gauge: a window held through the pass adds to its failures only if it was there, and all that
      remains of a window that is gone, once it is due, is nothing. */
  lemma GoneWindowsAreForgotten(e: EngineState, matched: set<WindowIdentity>, pending: seq<WindowIdentity>, i: nat)
    requires Keyed(e.snapshots) && i < |pending| && pending[i] in e.snapshots && pending[i] !in matched
    requires forall j, k | 0 <= j < k < |pending| :: pending[j] != pending[k]
    requires CountMiss(StateAt(e, pending[i])).1 && !WhenVisited(e, matched, pending, i).desk.Looked(pending[i].hwnd).Matches(pending[i])
    ensures var e' := StalePass(e, matched, pending); pending[i] !in e'.snapshots && pending[i] !in e'.stale
  {
    StalePassExactly(e, matched, pending, i);
  }

  lemma FailuresWereThere(e: EngineState, matched: set<WindowIdentity>, pending: seq<WindowIdentity>, i: nat)
    requires Keyed(e.snapshots) && i < |pending| && pending[i] in e.snapshots
    requires forall j, k | 0 <= j < k < |pending| :: pending[j] != pending[k]
    requires var e' := StalePass(e, matched, pending);
             pending[i] in e'.stale && e'.stale[pending[i]].attempts > StateAt(e, pending[i]).attempts
    ensures var id, d := pending[i], WhenVisited(e, matched, pending, i).desk.Looked(pending[i].hwnd);
            id !in matched && d.Matches(id) && !RestoreSnapshot(d, e.snapshots[id]).1 && id in StalePass(e, matched, pending).snapshots
  {
    StalePassExactly(e, matched, pending, i);
  }

  /** The gauge counts the windows with a failed attempt, each once. */
  lemma GaugeCounts(stale: map<WindowIdentity, StaleState>, id: WindowIdentity, st: StaleState)
    ensures FailureCount(map[]) == 0
    ensures FailureCount(stale[id := st]) == FailureCount(Without(stale, id)) + if st.attempts > 0 then 1 else 0
  {
    var none: map<WindowIdentity, StaleState>, after := map[], stale[id := st];
    var failing := set x | x in Without(stale, id) && Without(stale, id)[x].attempts > 0;
    assert (set x | x in none && none[x].attempts > 0) == {};
    assert (set x | x in after && after[x].attempts > 0) == if st.attempts > 0 then failing + {id} else failing;
  }

  /** One tick in which the window is unmatched and still held afterwards: any restore that was due failed. */
  ghost predicate StaysHeld(e: EngineState, e': EngineState, id: WindowIdentity) {
    exists start: EngineState, matched: set<WindowIdentity>, order: seq<Snapshot> ::
      && SameAt(e, start, id) && id in start.snapshots && id !in matched
      && IsOrder(order, start.snapshots, map[])
      && e' == StalePass(start, matched, IdentitySeq(order))
      && id in e'.snapshots
  }

  lemma StaysHeldFollowsMachine(e: EngineState, e': EngineState, id: WindowIdentity)
    requires StaysHeld(e, e', id)
    ensures StateAt(e', id) == FailTick(StateAt(e, id)).0
  {
    var start: EngineState, matched: set<WindowIdentity>, order: seq<Snapshot> :|
      && SameAt(e, start, id) && id in start.snapshots && id !in matched
      && IsOrder(order, start.snapshots, map[])
      && e' == StalePass(start, matched, IdentitySeq(order))
      && id in e'.snapshots;
    HeldPassFollowsMachine(start, matched, order, id);
  }

  lemma OrderListsOnce(order: seq<Snapshot>, snapshots: Snapshots, id: WindowIdentity)
    requires IsOrder(order, snapshots, map[]) && id in snapshots
    ensures id in IdentitySeq(order)
    ensures forall i, j | 0 <= i < j < |IdentitySeq(order)| :: IdentitySeq(order)[i] != IdentitySeq(order)[j]
  {
    assert id in Identities(order);
    var s :| s in order && s.identity == id;
    var i :| 0 <= i < |order| && order[i] == s;
    assert IdentitySeq(order)[i] == id;
  }

  lemma HeldPassFollowsMachine(start: EngineState, matched: set<WindowIdentity>, order: seq<Snapshot>, id: WindowIdentity)
    requires id in start.snapshots && id !in matched && IsOrder(order, start.snapshots, map[])
    requires id in StalePass(start, matched, IdentitySeq(order)).snapshots
    ensures StateAt(StalePass(start, matched, IdentitySeq(order)), id) == FailTick(StateAt(start, id)).0
  {
    OrderListsOnce(order, start.snapshots, id);
    StalePassOnOne(start, matched, IdentitySeq(order), id);
  }

  /** Over any number of such ticks of the engine the bookkeeping is that of the machine, so its
      attempts are those counted by `Attempts`. */
  lemma {:induction false} HeldRunFollowsMachine(es: seq<EngineState>, id: WindowIdentity, n: nat)
    requires n < |es| && forall k | 0 <= k < |es| - 1 :: StaysHeld(es[k], es[k + 1], id)
    ensures StateAt(es[n], id) == FailTicks(StateAt(es[0], id), n)
  {
    if n != 0 {
      HeldRunFollowsMachine(es, id, n - 1);
      StaysHeldFollowsMachine(es[n - 1], es[n], id);
    }
  }

  /** In how many of the first `n` ticks a restore of this window was due. */
  function DueTicks(es: seq<EngineState>, id: WindowIdentity, n: nat): nat
    requires n <= |es|
  {
    if n == 0 then 0 else DueTicks(es, id, n - 1) + if CountMiss(StateAt(es[n - 1], id)).1 then 1 else 0
  }

  /** After `k` ticks the bookkeeping is that of the machine. */
  predicate OnCourse(es: seq<EngineState>, id: WindowIdentity, k: nat)
    requires k < |es|
  {
    StateAt(es[k], id) == FailTicks(StateAt(es[0], id), k)
  }

  /** A window first missed in this run, held through `n` ticks: how often it was tried. */
  lemma EngineAttempts(es: seq<EngineState>, id: WindowIdentity, n: nat)
    requires 21 <= n < |es| && forall k | 0 <= k < |es| - 1 :: StaysHeld(es[k], es[k + 1], id)
    requires id !in es[0].stale
    ensures DueTicks(es, id, n) == 5 + (n - 21) / 301
  {
    forall k: nat | k < n ensures OnCourse(es, id, k) {
      HeldRunFollowsMachine(es, id, k);
    }
    DueTicksAreAttempts(es, id, n);
    AttemptsClosedForm(n);
  }

  /** Once a window was missed, how often it was missed does not matter to the attempts. */
  lemma {:induction false} StreakDoesNotMatter(st: StaleState, other: StaleState, n: nat)
    requires 1 <= st.missStreak <= U32_MAX && 1 <= other.missStreak <= U32_MAX && st.attempts == other.attempts && st.cooldown == other.cooldown
    ensures var a, b := FailTicks(st, n), FailTicks(other, n);
            && 1 <= a.missStreak <= U32_MAX && 1 <= b.missStreak <= U32_MAX && a.attempts == b.attempts && a.cooldown == b.cooldown
            && Attempts(st, n) == Attempts(other, n)
  {
    if n != 0 {
      StreakDoesNotMatter(st, other, n - 1);
    }
  }

  /** The bookkeeping of a window as a tray reset leaves it: it was missed, and that is all. */
  predicate MissedOnly(st: StaleState) { 1 <= st.missStreak <= U32_MAX && st.attempts == 0 && st.cooldown == 0 && !st.warned }

  /** A reset forgets every failure, and nothing but failures. */
  lemma ResetForgetsFailures(e: EngineState)
    requires BooksInOrder(e)
    ensures var stale := ClearedFailures(e.stale);
            && FailureCount(stale) == 0 && stale.Keys == e.stale.Keys
            && forall id | id in stale :: MissedOnly(stale[id]) && stale[id].missStreak == e.stale[id].missStreak
  {
    assert (set id | id in ClearedFailures(e.stale) && ClearedFailures(e.stale)[id].attempts > 0) == {};
  }

  /** After a reset the back-off starts all over: a window held through `n` ticks is tried as often as one
      first missed a tick ago. */
  lemma EngineAttemptsAfterReset(es: seq<EngineState>, id: WindowIdentity, n: nat)
    requires 20 <= n < |es| && forall k | 0 <= k < |es| - 1 :: StaysHeld(es[k], es[k + 1], id)
    requires id in es[0].stale && MissedOnly(es[0].stale[id])
    ensures DueTicks(es, id, n) == 5 + (n - 20) / 301
  {
    forall k: nat | k < n ensures OnCourse(es, id, k) {
      HeldRunFollowsMachine(es, id, k);
    }
    DueTicksAreAttempts(es, id, n);
    AttemptsAfterReset(es[0].stale[id], n);
  }

  lemma AttemptsAfterReset(st: StaleState, n: nat)
    requires 20 <= n && MissedOnly(st)
    ensures Attempts(st, n) == 5 + (n - 20) / 301
  {
    OneMiss();
    StreakDoesNotMatter(st, StaleState(1, 0, 0, false), n);
    Compose(FRESH, 1, n);
    AttemptsClosedForm(1 + n);
  }

  lemma OneMiss()
    ensures FailTicks(FRESH, 1) == StaleState(1, 0, 0, false) && Attempts(FRESH, 1) == 0
  {
    assert FailTicks(FRESH, 0) == FRESH && Attempts(FRESH, 0) == 0;
  }

  /** A drain forgets the bookkeeping of exactly those windows it does not hold any more, a clean-up that
      of windows neither held nor present; whatever survives is unchanged. */
  lemma BooksSurvive(w: World, step: Step, id: WindowIdentity)
    requires step.OffDrain? || step.FinalDrain? || step.Prune?
    ensures var e, e' := w.engine, After(w, step).engine;
            && (id in e'.stale <==> id in e.stale && (id in e'.snapshots || (step.Prune? && id in step.present)))
            && (id in e'.stale ==> e'.stale[id] == e.stale[id])
  {
  }

  lemma {:induction false} DueTicksAreAttempts(es: seq<EngineState>, id: WindowIdentity, n: nat)
    requires n < |es| && forall k: nat | k < n :: OnCourse(es, id, k)
    ensures DueTicks(es, id, n) == Attempts(StateAt(es[0], id), n)
  {
    if n != 0 {
      DueTicksAreAttempts(es, id, n - 1);
      assert OnCourse(es, id, n - 1);
    }
  }

  // ---------------------------------------------------------------- a window that can be restored

  /** The calls of a restore of this window would go through, and nothing else happens meanwhile. */
  ghost predicate Restorable(e: EngineState, id: WindowIdentity) {
    && Steady(e.desk.fate) && Keyed(e.snapshots)
    && id in e.snapshots && e.desk.Matches(id)
    && TryRestore(e.desk, e.desk.windows[id.hwnd], e.snapshots[id]).1
  }

  /** The other visits of a pass leave the window, its snapshot and its bookkeeping alone. */
  lemma OtherVisitSteady(e: EngineState, matched: set<WindowIdentity>, other: WindowIdentity, id: WindowIdentity)
    requires Restorable(e, id) && other != id
    ensures var e1 := StaleVisit(e, matched, other);
            Restorable(e1, id) && SameAt(e, e1, id) && e1.desk.windows[id.hwnd] == e.desk.windows[id.hwnd]
  {
    OtherVisit(e, matched, id, other);
    if other in e.snapshots {
      SteadyLook(e.desk, other.hwnd);
      var d := e.desk.Looked(other.hwnd);
      assert e.snapshots[other].identity == other;
      if d.Matches(other) {
        RestoreSnapshotSteady(d, e.snapshots[other]);
      }
    }
  }

  lemma OwnVisitSteady(e: EngineState, matched: set<WindowIdentity>, id: WindowIdentity)
    requires Restorable(e, id) && id !in matched && CountMiss(StateAt(e, id)).1
    ensures var e1 := StaleVisit(e, matched, id);
            && id !in e1.snapshots && id !in e1.stale && Steady(e1.desk.fate) && Keyed(e1.snapshots)
            && e1.desk.windows.Keys == e.desk.windows.Keys
            && e1.desk.windows[id.hwnd] == Restored(e.desk.windows[id.hwnd], e.snapshots[id])
            && e1.desk.Matches(id)
  {
    SteadyLook(e.desk, id.hwnd);
    assert e.snapshots[id].identity == id;
    RestoreSnapshotSteady(e.desk.Looked(id.hwnd), e.snapshots[id]);
  }

  /** A window back in place stays there for the rest of the pass. */
  lemma {:induction false} RestStaysSteady(e: EngineState, matched: set<WindowIdentity>, pending: seq<WindowIdentity>, id: WindowIdentity)
    requires Steady(e.desk.fate) && Keyed(e.snapshots) && id !in pending && id !in e.snapshots && e.desk.Matches(id)
    ensures var e' := StalePass(e, matched, pending);
            id.hwnd in e'.desk.windows && e'.desk.windows[id.hwnd] == e.desk.windows[id.hwnd]
    decreases pending
  {
    if pending != [] {
      var other := pending[0];
      var e1 := StaleVisit(e, matched, other);
      if other in e.snapshots {
        SteadyLook(e.desk, other.hwnd);
        var d := e.desk.Looked(other.hwnd);
        assert e.snapshots[other].identity == other;
        if d.Matches(other) {
          RestoreSnapshotSteady(d, e.snapshots[other]);
        }
      }
      assert Steady(e1.desk.fate) && Keyed(e1.snapshots) && id !in e1.snapshots && e1.desk.Matches(id)
             && e1.desk.windows[id.hwnd] == e.desk.windows[id.hwnd];
      RestStaysSteady(e1, matched, pending[1..], id);
    }
  }

  /** A whole stale pass restores a due window whose calls go through, wherever it stands in the order
      and whatever else is restored, dropped or fails. */
  lemma {:induction false} DueWindowIsRestored(e: EngineState, matched: set<WindowIdentity>, pending: seq<WindowIdentity>, id: WindowIdentity)
    requires Restorable(e, id) && id !in matched && CountMiss(StateAt(e, id)).1
    requires id in pending && forall i, j | 0 <= i < j < |pending| :: pending[i] != pending[j]
    ensures var e' := StalePass(e, matched, pending);
            && id !in e'.snapshots && id !in e'.stale && id.hwnd in e'.desk.windows
            && e'.desk.windows[id.hwnd] == Restored(e.desk.windows[id.hwnd], e.snapshots[id])
    decreases pending
  {
    var e1, rest := StaleVisit(e, matched, pending[0]), pending[1..];
    if pending[0] == id {
      OwnVisitSteady(e, matched, id);
      OtherVisits(e1, matched, rest, id);
      RestStaysSteady(e1, matched, rest, id);
    } else {
      OtherVisitSteady(e, matched, pending[0], id);
      assert forall i, j | 0 <= i < j < |rest| :: rest[i] != rest[j];
      DueWindowIsRestored(e1, matched, rest, id);
    }
  }

  /** A pass of one tick: whatever happened since the last one left this window held, unmatched and restorable. */
  ghost predicate TickFrom(e: EngineState, start: EngineState, matched: set<WindowIdentity>, order: seq<Snapshot>, id: WindowIdentity) {
    && SameAt(e, start, id) && Restorable(start, id) && id !in matched
    && IsOrder(order, start.snapshots, map[])
  }

  ghost predicate RestorableTick(e: EngineState, e': EngineState, id: WindowIdentity) {
    exists start: EngineState, matched: set<WindowIdentity>, order: seq<Snapshot> ::
      TickFrom(e, start, matched, order, id) && e' == StalePass(start, matched, IdentitySeq(order))
  }

  /** The tick put the window back. */
  ghost predicate RestoringTick(e: EngineState, e': EngineState, id: WindowIdentity) {
    exists start: EngineState, matched: set<WindowIdentity>, order: seq<Snapshot> ::
      && TickFrom(e, start, matched, order, id) && e' == StalePass(start, matched, IdentitySeq(order))
      && id !in e'.snapshots && id !in e'.stale && id.hwnd in e'.desk.windows
      && e'.desk.windows[id.hwnd] == Restored(start.desk.windows[id.hwnd], start.snapshots[id])
  }

  /** One such tick restores the window exactly when it is due, and else only counts. */
  lemma RestoredWhenDue(e: EngineState, e': EngineState, id: WindowIdentity)
    requires RestorableTick(e, e', id)
    ensures var (st, due) := CountMiss(StateAt(e, id));
            if due then RestoringTick(e, e', id) else id in e'.snapshots && StateAt(e', id) == st
  {
    var start: EngineState, matched: set<WindowIdentity>, order: seq<Snapshot> :|
      TickFrom(e, start, matched, order, id) && e' == StalePass(start, matched, IdentitySeq(order));
    OrderListsOnce(order, start.snapshots, id);
    if CountMiss(StateAt(e, id)).1 {
      DueWindowIsRestored(start, matched, IdentitySeq(order), id);
    } else {
      StalePassOnOne(start, matched, IdentitySeq(order), id);
    }
  }

  // ---------------------------------------------------------------- the bookkeeping in reachable states

  /** Whoever has bookkeeping was missed at least once, and no counter exceeds its bound. */
  predicate BooksInOrder(e: EngineState) {
    forall id | id in e.stale :: Bounded(e.stale[id]) && 1 <= e.stale[id].missStreak
  }

  lemma VisitKeepsBooks(e: EngineState, matched: set<WindowIdentity>, id: WindowIdentity)
    requires BooksInOrder(e)
    ensures BooksInOrder(StaleVisit(e, matched, id))
  {
    var st := CountMiss(StateAt(e, id)).0;
    assert Bounded(st) && 1 <= st.missStreak && Bounded(CountFailure(st));
    var stale' := StaleVisit(e, matched, id).stale;
    forall x | x in stale' ensures Bounded(stale'[x]) && 1 <= stale'[x].missStreak {
      if x == id {
        assert stale'[x] == st || stale'[x] == CountFailure(st);
      } else {
        assert x in e.stale && stale'[x] == e.stale[x];
      }
    }
  }

  lemma {:induction false} PassKeepsBooks(e: EngineState, matched: set<WindowIdentity>, pending: seq<WindowIdentity>)
    requires BooksInOrder(e)
    ensures BooksInOrder(StalePass(e, matched, pending))
    decreases pending
  {
    if pending != [] {
      VisitKeepsBooks(e, matched, pending[0]);
      PassKeepsBooks(StaleVisit(e, matched, pending[0]), matched, pending[1..]);
    }
  }

  lemma StepKeepsBooks(w: World, step: Step)
    requires BooksInOrder(w.engine)
    ensures BooksInOrder(After(w, step).engine)
  {
    if step.Tick? && step.applying {
      var s := ApplyPlan(w.Holding(), step.graph, step.pids, step.plan);
      PassKeepsBooks(EngineState(s.desk, s.snapshots, w.engine.stale), step.matched, IdentitySeq(step.order));
    }
  }

  /** The books are in order after any run. */
  lemma {:induction false} EveryRunKeepsBooks(w: World, steps: seq<Step>)
    requires BooksInOrder(w.engine)
    ensures BooksInOrder(Run(w, steps).engine)
    decreases steps
  {
    if steps != [] {
      StepKeepsBooks(w, steps[0]);
      EveryRunKeepsBooks(After(w, steps[0]), steps[1..]);
    }
  }

  /** How many ticks until the window is due. */
  function DueIn(st: StaleState): nat {
    st.cooldown + if st.missStreak == 0 then 1 else 0
  }

  /** A window that became restorable while unmatched is restored by the tick at which it is due: at most
      the 301st from now, or the second if it was never missed before. */
  lemma RestoredOnTime(es: seq<EngineState>, id: WindowIdentity) returns (k: nat)
    requires |es| >= 302 && id in es[0].snapshots && BooksInOrder(es[0])
    requires forall j | 0 <= j < |es| - 1 && id in es[j].snapshots :: RestorableTick(es[j], es[j + 1], id)
    ensures k == DueIn(StateAt(es[0], id)) <= 300
    ensures RestoringTick(es[k], es[k + 1], id) && forall j | 0 <= j <= k :: id in es[j].snapshots
  {
    k := DueIn(StateAt(es[0], id));
    forall j | 0 <= j < |es| - 1 && id in es[j].snapshots && !CountMiss(StateAt(es[j], id)).1
      ensures id in es[j + 1].snapshots && StateAt(es[j + 1], id) == CountMiss(StateAt(es[j], id)).0
    {
      RestoredWhenDue(es[j], es[j + 1], id);
    }
    CountsDown(es, id, 0, k);
    RestoredWhenDue(es[k], es[k + 1], id);
  }

  /** The same from every state a run reaches, whatever ticks, drains, resets, clean-ups and outside events
      it consists of. */
  lemma RestoredWithin301(w: World, steps: seq<Step>, es: seq<EngineState>, id: WindowIdentity) returns (k: nat)
    requires w.engine.stale == map[] && |es| >= 302 && es[0] == Run(w, steps).engine && id in es[0].snapshots
    requires forall j | 0 <= j < |es| - 1 && id in es[j].snapshots :: RestorableTick(es[j], es[j + 1], id)
    ensures k == DueIn(StateAt(es[0], id)) <= 300
    ensures RestoringTick(es[k], es[k + 1], id) && forall j | 0 <= j <= k :: id in es[j].snapshots
  {
    EveryRunKeepsBooks(w, steps);
    k := RestoredOnTime(es, id);
  }

  /** Until it is due, the window stays held and its bookkeeping counts down. */
  lemma {:induction false} CountsDown(es: seq<EngineState>, id: WindowIdentity, i: nat, n: nat)
    requires i + n < |es| && id in es[i].snapshots && n == DueIn(StateAt(es[i], id)) && Bounded(StateAt(es[i], id))
    requires forall j | i <= j < |es| - 1 && id in es[j].snapshots && !CountMiss(StateAt(es[j], id)).1 ::
               id in es[j + 1].snapshots && StateAt(es[j + 1], id) == CountMiss(StateAt(es[j], id)).0
    ensures CountMiss(StateAt(es[i + n], id)).1 && forall j | i <= j <= i + n :: id in es[j].snapshots
    decreases n
  {
    if n != 0 {
      CountsDown(es, id, i + 1, n - 1);
    }
  }

  /** After a tray reset the very next stale pass restores a window whose calls go through and that was
      missed before, however long its cooldown was. */
  lemma RestoredAfterReset(e: EngineState, matched: set<WindowIdentity>, order: seq<Snapshot>, id: WindowIdentity)
    requires Restorable(e, id) && id !in matched && IsOrder(order, e.snapshots, map[])
    requires id in e.stale && 1 <= e.stale[id].missStreak
    ensures var e' := StalePass(e.(stale := ClearedFailures(e.stale)), matched, IdentitySeq(order));
            && id !in e'.snapshots && id !in e'.stale && id.hwnd in e'.desk.windows
            && e'.desk.windows[id.hwnd] == Restored(e.desk.windows[id.hwnd], e.snapshots[id])
  {
    var e1 := e.(stale := ClearedFailures(e.stale));
    OrderListsOnce(order, e.snapshots, id);
    assert Restorable(e1, id) && StateAt(e1, id) == StaleState(e.stale[id].missStreak, 0, 0, false);
    DueWindowIsRestored(e1, matched, IdentitySeq(order), id);
  }
}

/** What a drain does to each window and snapshot, and in which order it tries them. */
module Drains {
  import opened Model
  import opened Desktop
  import opened Engine
  import opened UndoRuns

  /** Calls succeed or fail by window, not by moment, and nothing else happens meanwhile. */
  ghost predicate Steady(f: Fate) {
    && (forall n, m, h :: f.refusesShow(n, h) == f.refusesShow(m, h))
    && (forall n, m, h :: f.refusesPos(n, h) == f.refusesPos(m, h))
    && (forall n :: f.hangs(n) == {} && f.dies(n) == {} && f.appears(n) == map[] && f.recovers(n) == {})
  }

  /** The fate of one window and its snapshot, whatever else is restored before or after it. */
  function TryRestore(d: Desk, now: WindowRec, snap: Snapshot): (WindowRec, bool) {
    var h := snap.identity.hwnd;
    if h in d.hung then (now, false)
    else
      var placed := !Resizable(snap.rect) || !d.fate.refusesPos(0, h);
      var shown := now.visible || (snap.wasVisible && !d.fate.refusesShow(0, h));
      (now.(rect := if placed then Regrown(now, snap) else now.rect, visible := shown),
       placed && (snap.wasVisible ==> shown))
  }

  function DrainedWindows(d: Desk, snapshots: Snapshots): map<Hwnd, WindowRec> {
    map h | h in d.windows ::
      var id := d.windows[h].IdentityAs(h);
      if id in snapshots then TryRestore(d, d.windows[h], snapshots[id]).0 else d.windows[h]
  }

  predicate StillFailing(d: Desk, snap: Snapshot) {
    d.Matches(snap.identity) && !TryRestore(d, d.windows[snap.identity.hwnd], snap).1
  }

  function DrainedSnapshots(d: Desk, snapshots: Snapshots): Snapshots {
    map id | id in snapshots && StillFailing(d, snapshots[id]) :: snapshots[id]
  }

  lemma RestoreSnapshotSteady(d: Desk, snap: Snapshot)
    requires Steady(d.fate) && d.Matches(snap.identity)
    ensures var (d', ok) := RestoreSnapshot(d, snap);
            var h := snap.identity.hwnd;
            && d'.windows == d.windows[h := TryRestore(d, d.windows[h], snap).0]
            && ok == TryRestore(d, d.windows[h], snap).1
            && d'.hung == d.hung && d'.fate == d.fate
  {
    var h := snap.identity.hwnd;
    if h !in d.hung {
      assert d.Drifted().windows == d.windows && d.Drifted().hung == d.hung;
      var r := if Resizable(snap.rect) then snap.rect.value else Rect(0, 0, 0, 0);
      var (d1, placed) :=
        if Resizable(snap.rect) then d.SetWindowPos(h, r.left, r.top, r.Width(), r.Height(), !snap.topLevel)
        else (d, true);
      assert d1.windows == d.windows[h := d.windows[h].(rect := if placed then Regrown(d.windows[h], snap) else d.windows[h].rect)];
      assert d1.Drifted().windows == d1.windows && d1.Drifted().hung == d1.hung;
    }
  }

  lemma SteadyLook(d: Desk, h: Hwnd)
    requires Steady(d.fate)
    ensures var d1 := d.Looked(h); d1.windows == d.windows && d1.hung == d.hung && d1.fate == d.fate
  {
    assert d.windows - d.fate.dies(d.clock) + d.fate.appears(d.looks) == d.windows;
    assert d.hung + d.fate.hangs(d.clock) - d.fate.recovers(d.looks) == d.hung;
  }

  lemma RestoreOneSteady(s: Held, snap: Snapshot)
    requires Steady(s.desk.fate)
    ensures var (s1, ok) := RestoreOne(s, snap);
            && s1.desk.windows == DrainedWindows(s.desk, map[snap.identity := snap])
            && s1.desk.hung == s.desk.hung && s1.desk.fate == s.desk.fate
            && ok == !StillFailing(s.desk, snap)
            && s1.snapshots == if ok then s.snapshots else s.snapshots[snap.identity := snap]
  {
    var d := s.desk.Looked(snap.identity.hwnd);
    SteadyLook(s.desk, snap.identity.hwnd);
    if d.Matches(snap.identity) {
      RestoreSnapshotSteady(d, snap);
      var h := snap.identity.hwnd;
      assert s.desk.windows[h := TryRestore(d, d.windows[h], snap).0] == DrainedWindows(s.desk, map[snap.identity := snap]);
    }
  }

  lemma {:induction false} RestorePendingSteady(s: Held, failures: nat, pending: seq<Snapshot>)
    requires Steady(s.desk.fate) && Distinct(pending)
    ensures var s' := RestorePending(s, failures, pending).0;
            && s'.desk.windows == DrainedWindows(s.desk, AsMap(pending))
            && s'.desk.hung == s.desk.hung && s'.desk.fate == s.desk.fate
            && s'.snapshots == s.snapshots + DrainedSnapshots(s.desk, AsMap(pending))
    decreases pending
  {
    if pending == [] {
      assert DrainedWindows(s.desk, map[]) == s.desk.windows;
    } else {
      var snap, rest := pending[0], pending[1..];
      FirstIsDistinct(pending);
      AsMapKeys(rest);
      RestoreOneSteady(s, snap);
      var (s1, ok) := RestoreOne(s, snap);
      RestorePendingSteady(s1, if ok then failures else failures + 1, rest);
      WindowsCompose(s.desk, s1.desk, snap, AsMap(rest));
      SnapshotsCompose(s, s1, snap, AsMap(rest));
    }
  }

  lemma WindowsCompose(d: Desk, d1: Desk, snap: Snapshot, rest: Snapshots)
    requires snap.identity !in rest
    requires d1.windows == DrainedWindows(d, map[snap.identity := snap]) && d1.hung == d.hung && d1.fate == d.fate
    ensures DrainedWindows(d1, rest) == DrainedWindows(d, rest[snap.identity := snap])
  {
  }

  lemma SnapshotsCompose(s: Held, s1: Held, snap: Snapshot, rest: Snapshots)
    requires snap.identity !in rest && Keyed(rest)
    requires s1.desk.windows == DrainedWindows(s.desk, map[snap.identity := snap])
    requires s1.desk.hung == s.desk.hung && s1.desk.fate == s.desk.fate
    requires s1.snapshots == if StillFailing(s.desk, snap) then s.snapshots[snap.identity := snap] else s.snapshots
    ensures s1.snapshots + DrainedSnapshots(s1.desk, rest)
         == s.snapshots + DrainedSnapshots(s.desk, rest[snap.identity := snap])
  {
    assert DrainedSnapshots(s1.desk, rest) == DrainedSnapshots(s.desk, rest) by {
      forall id | id in rest ensures StillFailing(s1.desk, rest[id]) == StillFailing(s.desk, rest[id]) {
        OtherWindowUnmoved(s.desk, s1.desk, snap, rest[id]);
      }
    }
    InsertDrained(s.desk, s.snapshots, snap, rest);
  }

  lemma OtherWindowUnmoved(d: Desk, d1: Desk, snap: Snapshot, other: Snapshot)
    requires snap.identity != other.identity
    requires d1.windows == DrainedWindows(d, map[snap.identity := snap]) && d1.hung == d.hung && d1.fate == d.fate
    ensures StillFailing(d1, other) == StillFailing(d, other)
  {
    if other.identity.hwnd in d.windows {
      assert d1.windows[other.identity.hwnd].IdentityAs(other.identity.hwnd)
          == d.windows[other.identity.hwnd].IdentityAs(other.identity.hwnd);
    }
  }

  lemma InsertDrained(d: Desk, kept: Snapshots, snap: Snapshot, rest: Snapshots)
    requires snap.identity !in rest
    ensures (if StillFailing(d, snap) then kept[snap.identity := snap] else kept) + DrainedSnapshots(d, rest)
         == kept + DrainedSnapshots(d, rest[snap.identity := snap])
  {
    var all := rest[snap.identity := snap];
    if StillFailing(d, snap) {
      assert DrainedSnapshots(d, all) == DrainedSnapshots(d, rest)[snap.identity := snap];
    } else {
      assert DrainedSnapshots(d, all) == DrainedSnapshots(d, rest);
    }
  }

  /** A drain treats every window on its own: the desktop and the kept snapshots it leaves behind do
      not depend on the order of the restores. */
  lemma DrainPartitions(s: Held, order: seq<Snapshot>, stale: map<WindowIdentity, StaleState>)
    requires Steady(s.desk.fate) && IsOrder(order, s.snapshots, stale)
    ensures var (s', failures) := Drain(s, order);
            && s'.desk.windows == DrainedWindows(s.desk, s.snapshots)
            && s'.snapshots == DrainedSnapshots(s.desk, s.snapshots)
            && failures == |s'.snapshots|
  {
    OrderCovers(order, s.snapshots, stale);
    var start := Held(s.desk, map[]);
    RestorePendingSteady(start, 0, order);
    FailuresAreKept(start, 0, order);
    assert Drain(s, order) == RestorePending(start, 0, order);
    NothingAdded(DrainedSnapshots(s.desk, s.snapshots));
  }

  lemma NothingAdded(snapshots: Snapshots)
    ensures map[] + snapshots == snapshots
  {
  }

  /** The ordinary and the shutdown drain end in the same state. */
  lemma BothDrainsAgree(s: Held, stale: map<WindowIdentity, StaleState>, order: seq<Snapshot>, final: seq<Snapshot>)
    requires Steady(s.desk.fate)
    requires IsOrder(order, s.snapshots, map[]) && IsOrder(final, s.snapshots, stale)
    ensures Drain(s, order).0.desk.windows == Drain(s, final).0.desk.windows
    ensures Drain(s, order).0.snapshots == Drain(s, final).0.snapshots
    ensures Drain(s, order).1 == Drain(s, final).1
  {
    DrainPartitions(s, order, map[]);
    DrainPartitions(s, final, stale);
  }

  // ---------------------------------------------------------------- order of the attempts

  /** A restore only calls its own window. */
  predicate OnlyCallsOn(before: seq<ApiCall>, after: seq<ApiCall>, h: Hwnd) {
    before <= after && forall a | |before| <= a < |after| :: after[a].target == h && !after[a].kind.Look?
  }

  lemma RestoreLog(d: Desk, snap: Snapshot)
    ensures OnlyCallsOn(d.log, RestoreSnapshot(d, snap).0.log, snap.identity.hwnd)
    ensures snap.identity.hwnd in d.hung ==> RestoreSnapshot(d, snap).0.log == d.log
  {
    var h := snap.identity.hwnd;
    if h !in d.hung {
      if Resizable(snap.rect) {
        var r := snap.rect.value;
        var d1 := d.SetWindowPos(h, r.left, r.top, r.Width(), r.Height(), !snap.topLevel).0;
        assert OnlyCallsOn(d.log, d1.log, h);
        assert OnlyCallsOn(d1.log, d1.ShowWindow(h, true).0.log, h);
      } else {
        assert OnlyCallsOn(d.log, d.ShowWindow(h, true).0.log, h);
      }
    }
  }

  lemma EntriesOfOne(s: Held, snap: Snapshot)
    ensures var log := RestoreOne(s, snap).0.desk.log;
            s.desk.log <= log && forall a | |s.desk.log| <= a < |log| :: MadeFor(log, |s.desk.log|, a, snap)
  {
    var h := snap.identity.hwnd;
    var d := s.desk.Looked(h);
    assert d.log == s.desk.log + [ApiCall(h, Look(d.SightingOf(h)), true)];
    RestoreLog(d, snap);
    var log := RestoreOne(s, snap).0.desk.log;
    assert d.log <= log;
    assert log[|s.desk.log|] == d.log[|s.desk.log|];
  }

  /** What is said about a stretch of the log stays true when it grows. */
  lemma MadeForLonger(log: seq<ApiCall>, longer: seq<ApiCall>, from: nat, a: nat, snap: Snapshot)
    requires log <= longer && from <= a < |log| && MadeFor(log, from, a, snap)
    ensures MadeFor(longer, from, a, snap)
  {
    assert longer[a] == log[a] && longer[from] == log[from];
  }

  /** The entry at `a` belongs to the restore of this snapshot that began at `from`: first a check of its
      window, then calls on it, made only if the check saw the very window of the snapshot. */
  predicate MadeFor(log: seq<ApiCall>, from: nat, a: nat, snap: Snapshot)
    requires from <= a < |log|
  {
    && log[a].target == snap.identity.hwnd
    && log[from].kind.Look?
    && (a > from ==>
          && !log[a].kind.Look?
          && log[from].kind.seen.rec.Some?
          && log[from].kind.seen.rec.value.IdentityAs(log[from].target) == snap.identity
          && !log[from].kind.seen.hung)
  }

  lemma {:induction false} LogGrows(s: Held, failures: nat, pending: seq<Snapshot>)
    ensures s.desk.log <= RestorePending(s, failures, pending).0.desk.log
    decreases pending
  {
    if pending != [] {
      EntriesOfOne(s, pending[0]);
      var (s1, ok) := RestoreOne(s, pending[0]);
      LogGrows(s1, if ok then failures else failures + 1, pending[1..]);
    }
  }

  /** Which restore of a drain made the entry at `a`, and where in the log that restore began. */
  function OwnerOf(s: Held, failures: nat, pending: seq<Snapshot>, a: nat): (nat, nat)
    decreases pending
  {
    if pending == [] then (0, |s.desk.log|)
    else
      var (s1, ok) := RestoreOne(s, pending[0]);
      if a < |s1.desk.log| then (0, |s.desk.log|)
      else
        var (i, from) := OwnerOf(s1, if ok then failures else failures + 1, pending[1..], a);
        (i + 1, from)
  }

  /** Every entry belongs to a restore, and the restores are made in the given order. */
  lemma {:induction false} OwnersFollowOrder(s: Held, failures: nat, pending: seq<Snapshot>, a: nat, b: nat)
    requires |s.desk.log| <= a <= b < |RestorePending(s, failures, pending).0.desk.log|
    ensures var log := RestorePending(s, failures, pending).0.desk.log;
            var (i, from) := OwnerOf(s, failures, pending, a);
            && i <= OwnerOf(s, failures, pending, b).0 < |pending|
            && |s.desk.log| <= from <= a && MadeFor(log, from, a, pending[i])
    decreases pending
  {
    assert pending != [];
    var (s1, ok) := RestoreOne(s, pending[0]);
    var n, rest := if ok then failures else failures + 1, pending[1..];
    var log := RestorePending(s, failures, pending).0.desk.log;
    assert log == RestorePending(s1, n, rest).0.desk.log;
    EntriesOfOne(s, pending[0]);
    LogGrows(s1, n, rest);
    if a < |s1.desk.log| {
      MadeForLonger(s1.desk.log, log, |s.desk.log|, a, pending[0]);
      if b >= |s1.desk.log| {
        OwnersFollowOrder(s1, n, rest, b, b);
      }
    } else {
      OwnersFollowOrder(s1, n, rest, a, b);
    }
  }

  predicate PreviouslyFailed(snap: Snapshot, stale: map<WindowIdentity, StaleState>) {
    snap.identity in stale && stale[snap.identity].attempts > 0
  }

  /** Shutdown drain, cut anywhere: once a previously failing window has been attempted, every later
      attempt is on a previously failing window too; within each group top-level windows come first, and
      among windows of the same kind the smaller handle. The ordinary drain and the stale pass use the same
      order without earlier failures. */
  lemma HealthyWindowsFirst(s: Held, order: seq<Snapshot>, stale: map<WindowIdentity, StaleState>, a: nat, b: nat)
    requires IsOrder(order, s.snapshots, stale)
    requires |s.desk.log| <= a <= b < |Drain(s, order).0.desk.log|
    ensures var start, log := Held(s.desk, map[]), Drain(s, order).0.desk.log;
            var ((i, from), (j, later)) := (OwnerOf(start, 0, order, a), OwnerOf(start, 0, order, b));
            && i <= j < |order| && from <= a && later <= b
            && MadeFor(log, from, a, order[i]) && MadeFor(log, later, b, order[j])
            && (PreviouslyFailed(order[i], stale) ==> PreviouslyFailed(order[j], stale))
            && (PreviouslyFailed(order[i], stale) == PreviouslyFailed(order[j], stale) && order[j].topLevel ==> order[i].topLevel)
            && (PreviouslyFailed(order[i], stale) == PreviouslyFailed(order[j], stale) && order[i].topLevel == order[j].topLevel
                ==> order[i].identity.hwnd <= order[j].identity.hwnd)
  {
    var start := Held(s.desk, map[]);
    OwnersFollowOrder(start, 0, order, a, b);
    OwnersFollowOrder(start, 0, order, b, b);
    var i, j := OwnerOf(start, 0, order, a).0, OwnerOf(start, 0, order, b).0;
    assert i < j ==> KeyLeq(KeyOf(order[i], stale), KeyOf(order[j], stale));
  }
}

# A model of the ad blocker's engine, decisions, worker and updater

The program hides, zero-sizes and closes advertisement windows of another process, decides which windows
those are from a snapshot of the window tree, runs that in a timed worker loop, and replaces its own
executable when it updates. This project models these parts in Dafny and proves what they are for.
`dafny verify dfyconfig.toml` checks everything. The original program is not executed anywhere.

## The suppress/restore engine

`Desktop` is the window system with the semantics of the repository's own test double. Every ShowWindow
and SetWindowPos may be refused, windows may hang or die at every interaction, and another thread may
switch the engine off; all of that is read from an arbitrary `Fate`. `Engine` holds the passes as
functions and the worker-owned caches as a class whose methods are proved to do what the functions say.

The central result is in `Undo` and `UndoRuns`. Beside the real desktop runs a shadow: the desktop as it
would be had the engine never touched it. After any sequence of ticks, drains, resets, clean-ups and
outside events, every live window either equals its shadow (a main view the engine resized on purpose
may differ in size) or has, under its exact identity, a snapshot that brings its shadow back; a drain
without failures therefore restores everything. Windows may hang, die, appear and recover during every
pass, and the application may move a held child window about; the following is assumed of the outside.

- Rectangles have both dimensions positive and representable or both zero (`Limits.ZeroSizeUndoneIffRegular`).
- Within one apply no check turns from false to true: nothing recovers, nobody switches the engine on
  (`Limits.RecoveryBetweenPassesIsFatal`). Drains and stale passes do not need this.
- An identity is not reused while its snapshot is held (`Limits.ReusedWhileHeld`) or, during one apply,
  while it is in the graph.
- The application's calls on a held window leave its visibility and size as in the shadow, and its
  position too if it is a top-level window with an area (`Limits.ShownOrHiddenWhileHeld`,
  `Limits.MovedWhileHeld`, `Limits.ResizedWhileHeld`, `Limits.ShownWhileHeld`).

The theorems named in brackets say, as an equivalence each, what comes out when that assumption is
dropped and nothing else goes wrong.

`Guards` says whom one apply may touch, on the evidence of what each check saw, and `Effects` what comes
out when nothing interferes. `Drains` shows that restores are independent of each other and puts healthy
windows first at shutdown. `Backoff` gives the retry back-off of stale windows in closed form, ties it
to the engine and shows when a window that can be restored again is restored; it says exactly what a
stale pass, a drain and a clean-up do to the bookkeeping of each window. `Ticking` and `TickLaw` compose
a whole tick: what is assumed of graph and plan holds by construction, provided enumerating below a
window lists child windows only, each once; and what a tick no longer wants suppressed comes back.

## The decision core

`Signals` and `Evaluate` define the verdicts and the two passes over them, the applied one and the
diagnostic preview; `EvaluateLoops` contains the loops, on mutable objects, proved to compute them.
`Cells` follows each window through the loops, and `Law` says on forests, without them, what one
evaluation does to it: the new streaks, whether it is hidden or closed, and where it is placed. `Misses`
concludes that a look without evidence ends a streak. `Preview` proves that both passes agree on every
graph, `Reports` and `Listings` what the preview reports about whom, and `Counters` that the counters
add up. `LockStep`, `Verdicts` and `Streaks` follow the streaks of each window over whole sessions,
`Provenance` says where targets can come from, and `Evidence` says, in terms of the windows themselves,
exactly which windows are matched for what; `FewerTokens` draws a conclusion from that for shorter token
lists. `Leaves` puts the single tests in terms of windows, paths, positions in texts and edges of
rectangles. `Search` relates the queue enumeration and the recursive searches to child paths; `Tokens`
does text tokens. `Trees`, `GraphBuild` and `BuiltGraph` build the window graph and prove that one
enumeration is enough, that the result is a forest for any GetParent, that its nodes repeat what the
system says, and that it is the window tree for a consistent one.

Two facts of the code that are easily overlooked. "At most one branch may record a verdict for a window
per tick" (`evaluate/inspect.rs`) holds for misses only, as the sentence after it says; two matches of
one window do occur if the EVA child class also carries a chrome-widget prefix, and then count as two
ticks. `Overlap` gives the exact condition, in terms of class, text, rectangle and subtree, and an input
whose first tick confirms a weak verdict; the distinct-ticks results hold for every window that does not
meet it, and no other result depends on it. And a confirmed main window whose own subtree holds a legacy
title is a hide candidate (`Provenance.MainWindowIsTargetOnlyIfLegacy`).

## The updater

`Installer` is the helper process on a map from paths to bytes. Creating, appending a chunk, syncing,
renaming and removing are single steps that may fail, finitely often; between any two steps other
programs may change the download, finitely often; each step is recorded. If nothing fails and nobody
interferes, outcome and files are stated exactly; otherwise a temporary file is left only if its removal
failed. `Campaign` chains attempts, each cut at an arbitrary recorded moment, and proves that a complete
accepted image is installed at all of them. Accepted means read from a non-empty download, opened once,
piece by piece to its end: if nobody changes it during the run, all of it. Without an expected hash the
length check and the copy read the download at different times, so a download truncated in between is
installed as it is then (`Campaign.TruncatedDownloadIsInstalled`); with a hash only verified bytes are.

## The worker

`Control` holds the two timed retry machines with their exact rate bounds. `Worker` is the loop, one
`Env` per iteration for everything outside, and sleeping any time up to the time asked for. `WorkerRuns`
proves bounded response, spacing, finite bursts and the hook invariant over all runs, and `Bursts` the
other direction: bursts run all their ticks, no tick is overdue, and sleeps, scans, hook attempts and
pauses happen when they should. Computation is instantaneous except scanning and ticking. Two bounds one
might expect do not hold of the code, and `WorkerRuns` says exactly when they do.

- An event is answered within the burst interval unless the iteration that answers it first scans the
  processes for too long. `WorkerRuns.AnswersInTimeExactlyIfScansFit` states this as an equivalence over
  steady runs, with the guard of the scan and its duration; `WorkerRuns.LongScanDelaysTheAnswer` is an
  input.
- A tick that panics into the five-second pause does not spend its burst, because the loop continues
  before the decrement, so a burst whose ticks keep panicking does not end. The bound on early ticks
  survives panics for a configuration if and only if no reconcile interval exceeds the burst interval
  (`WorkerRuns.BurstsOverrunExactly`); `WorkerRuns.PanicsOutliveTheBurst` is the input, for every other
  configuration. Without pauses the bound always holds (`WorkerRuns.BurstsAreFinite`).

## Canonical text

`Canonical` prints JSON values as update signatures cover them and `Decoder` reads them back; `Spelling`
says which of the many texts a decoder accepts is the canonical one.

## Model

| member | source | states |
|---|---|---|
| `Desktop.Desktop.ShowWindow` | rust/crates/kakao-win32/src/fake.rs:557-579 | The call may be refused or come too late; otherwise exactly the window's own visible style changes, and the attempt is logged with its outcome. |
| `Desktop.Desktop.SetWindowPos` | rust/crates/kakao-win32/src/fake.rs:581-626 | As above for geometry: the corner stays with SWP_NOMOVE, the size is always set, a window without a rectangle gets one. |
| `Desktop.Desktop.SendClose` | rust/crates/kakao-win32/src/fake.rs:628-676 | WM_CLOSE takes away an arbitrary set of windows, possibly none; a dead target is only logged. |
| `Desktop.Desktop.Check` | rust/crates/kakao-app/src/engine/apply.rs:66-83 | One check of a window: windows may have appeared, recovered, hung or died before it; it records what it saw and changes nothing. |
| `Engine.EngineCaches.RememberSnapshot` | rust/crates/kakao-app/src/engine/apply.rs:12-44 | The first snapshot of an identity is kept; a later one never overwrites it. |
| `Engine.EngineCaches.ApplyEvaluation` | rust/crates/kakao-app/src/engine/apply.rs:52-196 | The four loops in order (capture, hide, place, close) leave the desktop and snapshots that the pass functions describe; nothing happens when switched off. |
| `Engine.EngineCaches.CaptureTargets` | rust/crates/kakao-app/src/engine/apply.rs:84-97 | Every target whose check succeeds is captured before anything is hidden. |
| `Engine.EngineCaches.HideTargets` | rust/crates/kakao-app/src/engine/apply.rs:99-111 | Each target is checked again and hidden only if its own visible style is set; nothing is captured here. |
| `Engine.EngineCaches.PlaceTargets` | rust/crates/kakao-app/src/engine/apply.rs:112-159 | Zero-sizing captures first and skips windows already empty in the graph; view resizes are never captured. |
| `Engine.EngineCaches.CloseTargets` | rust/crates/kakao-app/src/engine/apply.rs:160-191 | Close requests go to targets whose check succeeds until the shared deadline has passed. |
| `Engine.EngineCaches.RestoreWindow` | rust/crates/kakao-app/src/engine/restore.rs:70-114 | A hung window fails at once; otherwise size or position, then visibility, and success means both took. |
| `Engine.EngineCaches.RestoreAllPending` | rust/crates/kakao-app/src/engine/restore.rs:15-33 | Gone identities are dropped, restored ones forgotten, failed ones put back and counted. |
| `Engine.EngineCaches.DrainRestoreAll` | rust/crates/kakao-app/src/engine/caches.rs:47-56 | All snapshots are taken in restore order and drained; bookkeeping survives only for those still held. |
| `Engine.EngineCaches.DrainRestoreAllFinal` | rust/crates/kakao-app/src/engine/caches.rs:58-67 | The same with previously failing windows last. |
| `Engine.EngineCaches.RestoreStaleHidden` | rust/crates/kakao-app/src/engine/restore.rs:129-190 | Every held window is visited once, top-level windows first and by handle; the number of failing windows is returned. |
| `Engine.EngineCaches.VisitStale` | rust/crates/kakao-app/src/engine/restore.rs:140-187 | Matched, not yet due, gone, restored and failing windows each leave the bookkeeping the back-off needs. |
| `Engine.EngineCaches.ClearRestoreFailures` | rust/crates/kakao-app/src/engine/caches.rs:38-44 | A tray reset clears attempts, cooldowns and warnings but not the miss streaks. |
| `Engine.SortedSnapshots` | rust/crates/kakao-app/src/engine/restore.rs:35-68 | The restore order is a permutation of the snapshots, sorted by earlier failure, top-level first, then handle. |
| `Undo.ApplyPlanSafe` | rust/crates/kakao-app/src/engine/apply.rs:52-196 | Whatever calls fail and whatever hangs, dies, appears or is switched off meanwhile, one plan keeps every live window untouched or covered by a snapshot of its untouched state. |
| `Undo.CapturePassSafe` | rust/crates/kakao-app/src/engine/apply.rs:84-97 | After the capture loop every target that may still be touched has a faithful snapshot. |
| `Undo.HidePassSafe` | rust/crates/kakao-app/src/engine/apply.rs:99-111 | Hiding without capturing again is safe, because what is hidden was captured. |
| `Undo.PosOneSafe` | rust/crates/kakao-app/src/engine/apply.rs:112-159 | A zero-size entry stays undoable and a view resize changes nothing but the size of a child window. |
| `Undo.ClosePassSafe` | rust/crates/kakao-app/src/engine/apply.rs:160-191 | The close requests keep the invariant, whatever set of windows each of them takes away. |
| `Undo.RetainedSafe` | rust/crates/kakao-app/src/engine/apply.rs:192-195 | Forgetting the snapshots of windows that are gone loses nothing that is still there. |
| `Undo.ClosesForgetTheGone` | rust/crates/kakao-app/src/engine/apply.rs:192-195 | After an apply that had windows to close, a snapshot is held exactly if it was held before the close requests and its window is still there; without any, nothing is forgotten. |
| `UndoRuns.RestoreSnapshotShape` | rust/crates/kakao-app/src/engine/restore.rs:70-114 | A restore touches one window; failing, it has done part of its work; succeeding, position or offset, size and visibility are those of the snapshot. |
| `UndoRuns.RestorePendingSafe` | rust/crates/kakao-app/src/engine/restore.rs:15-33 | At every point of a drain the windows not yet visited are still covered. |
| `UndoRuns.StalePassSafe` | rust/crates/kakao-app/src/engine/restore.rs:129-190 | Restoring windows that stopped matching keeps every other window covered. |
| `UndoRuns.StepKeepsInvariant` | rust/crates/kakao-app/src/engine/tick.rs:19-99 | Ticks, both drains, tray resets, clean-ups, windows that appear or recover during any of them, and outside events, harmless calls of the application on held windows included, each keep the invariant. |
| `UndoRuns.HarmlessKeepsSuppressed` | rust/crates/kakao-app/src/engine/restore.rs:82-100 | A snapshot stays good while the application moves a held child window, or one without area, and sets visibility, position or size to what they were. |
| `UndoRuns.EveryRunIsUndoable` | rust/crates/kakao-app/src/engine/worker.rs:167-323 | The invariant holds after any sequence of those steps. |
| `UndoRuns.ReachableIsUndoable` | rust/crates/kakao-app/src/engine/model.rs:18-24 | In every reachable state a live window whose own visibility or geometry (a main view's size aside) differs from its untouched state has a snapshot under its exact identity holding visibility and size and, for a top-level window, the position; a child is where it would be untouched. |
| `UndoRuns.CleanDrainRestoresEverything` | rust/crates/kakao-app/src/engine/restore.rs:35-68 | After any run, a drain that reports no failure puts every live window back: visibility, top-level position, size, and the child offset the application gave it meanwhile. |
| `Limits.ZeroSizeUndoneIffRegular` | rust/crates/kakao-app/src/engine/restore.rs:70-114 | With every call going through, a zero-sized window gets its rectangle back if and only if both dimensions were positive and representable or both zero. |
| `Limits.FlatWindowIsLost` | rust/crates/kakao-app/src/engine/restore.rs:70-114 | A window one pixel wide and zero high does not get its rectangle back. |
| `Limits.RecoveryBetweenPassesIsFatal` | rust/crates/kakao-app/src/engine/apply.rs:94-111 | If a check may turn from false to true between capture and hide, the window stays undoable if and only if the check already held at capture. |
| `Limits.ShownWhileHeld` | rust/crates/kakao-app/src/engine/restore.rs:70-114 | A window the application shows while its snapshot is held and the engine hides again comes back if and only if it was visible when captured. |
| `Limits.ShownOrHiddenWhileHeld` | rust/crates/kakao-app/src/engine/restore.rs:102-113 | Shown or hidden by the application while held, a restored window is as the application wants it if and only if that is shown or the untouched window was hidden. |
| `Limits.MovedWhileHeld` | rust/crates/kakao-app/src/engine/restore.rs:82-100 | Moved while held, it is restored to where the application put it if and only if it is a child, has no area, or was not moved. |
| `Limits.ResizedWhileHeld` | rust/crates/kakao-app/src/engine/restore.rs:82-100 | Resized while held, it keeps the new size if and only if it had no area or that size already. |
| `Limits.ReusedWhileHeld` | rust/crates/kakao-app/src/engine/restore.rs:70-114 | A new window under a held identity is left as it is if and only if it is visible in case the old one was, and the old one had no area or the same size (and, top-level, the same position). |
| `Drains.DrainPartitions` | rust/crates/kakao-app/src/engine/restore.rs:15-49 | Every snapshot is restored, dropped because its identity is gone, or kept, independently of the order; the failure count is the number kept. |
| `Drains.BothDrainsAgree` | rust/crates/kakao-app/src/engine/caches.rs:47-67 | The ordinary and the shutdown drain leave the same desktop, snapshots and count. |
| `UndoRuns.FailuresAreKept` | rust/crates/kakao-app/src/engine/restore.rs:15-33 | With arbitrary failures too, the failure count is exactly the number of snapshots kept. |
| `Drains.OwnersFollowOrder` | rust/crates/kakao-app/src/engine/restore.rs:15-33 | Every check and call of a drain is made for one position of the order, by identity, and these positions never decrease. |
| `Drains.HealthyWindowsFirst` | rust/crates/kakao-app/src/engine/restore.rs:51-68 | Wherever the final drain is cut, no call for a previously failed snapshot precedes one for a never-failed one, within each group top-level windows come first, and then the smaller handle, even if two held identities share one. |
| `Guards.NoForeignWindow` | rust/crates/kakao-app/src/engine/apply.rs:66-191 | Every mutating call of one apply directly follows a check of its own target that saw, at that moment, the engine on and a responding window of a watched process that is the one in the graph, visible if it is hidden and before the deadline if it is asked to close; every new snapshot is what such a check saw; no other window differs unless it just appeared. |
| `Guards.SizesBeforeCloses` | rust/crates/kakao-app/src/engine/apply.rs:99-191 | All hides and sizes precede the first WM_CLOSE. |
| `Guards.NoCloseAfterDeadline` | rust/crates/kakao-app/src/engine/apply.rs:160-191 | Once the shared deadline has passed nobody is asked to close any more. |
| `Guards.ZeroSizedAreHeld` | rust/crates/kakao-app/src/engine/apply.rs:112-159 | Whatever recovers or is switched on between the loops, every window an apply zero-sizes is held afterwards, unless it is gone. |
| `Effects.CalmPlanIsCarriedOut` | rust/crates/kakao-app/src/engine/apply.rs:52-196 | When nothing gets in the way the result is exactly the plan: hidden, placed by the last entry, every hidden or zero-sized target captured, and the close calls in order. |
| `Effects.ZeroEntriesEmpty` | rust/crates/kakao-app/src/engine/apply.rs:112-159 | A window with only zero-size entries ends without area. |
| `Effects.PlacedMeans` | rust/crates/kakao-win32/src/fake.rs:581-626 | A placed window has the size asked for, and keeps its corner exactly if it has one and may not be moved. |
| `Backoff.AttemptsClosedForm` | rust/crates/kakao-app/src/engine/restore.rs:116-190 | Over n >= 21 unmatched ticks whose restores fail there are exactly 5 + (n - 21) / 301 attempts, for every n. |
| `Backoff.EngineAttempts` | rust/crates/kakao-app/src/engine/restore.rs:129-190 | The same count for the engine itself, wherever the window stands in the restore order and whatever else is held. |
| `Backoff.StalePassOnOne` | rust/crates/kakao-app/src/engine/restore.rs:129-190 | What a whole stale pass does to the bookkeeping of one window depends on that window alone. |
| `Backoff.StalePassExactly` | rust/crates/kakao-app/src/engine/restore.rs:140-187 | What one stale pass does to each window, wherever it stands in the order and whatever the outside does: matched ones lose their bookkeeping, undue ones only count, due ones that are gone at their own check or come back are forgotten altogether, and exactly the others stay held with one failure more. |
| `Backoff.GoneWindowsAreForgotten` | rust/crates/kakao-app/src/engine/restore.rs:165-168 | After the pass a due unmatched window that its own check does not find has neither snapshot nor bookkeeping. |
| `Backoff.FailuresWereThere` | rust/crates/kakao-app/src/engine/restore.rs:169-187 | Every failure counted by a pass is that of a window that was there at its check and whose restore failed. |
| `Backoff.GaugeCounts` | rust/crates/kakao-app/src/engine/caches.rs:26-36 | The reported number of failures counts the windows with a failed attempt, each once. |
| `Backoff.HeldRunFollowsMachine` | rust/crates/kakao-app/src/engine/restore.rs:140-187 | Across any number of such ticks the bookkeeping is that of the one-window back-off machine. |
| `Backoff.DueWindowIsRestored` | rust/crates/kakao-app/src/engine/restore.rs:129-190 | A whole stale pass restores a due unmatched window whose calls go through, wherever it stands in the order and whatever else is restored, dropped or fails. |
| `Backoff.EveryRunKeepsBooks` | rust/crates/kakao-app/src/engine/restore.rs:129-190 | After any run of ticks, drains, resets, clean-ups and outside events, whoever has bookkeeping was missed at least once and no counter exceeds its bound. |
| `Backoff.RestoredWithin301` | rust/crates/kakao-app/src/engine/restore.rs:116-190 | From every state such a run reaches, a window that has become restorable while unmatched is restored by the engine exactly when it is due, at most 301 unmatched ticks from now. |
| `Backoff.RestoredAfterReset` | rust/crates/kakao-app/src/engine/caches.rs:38-44 | After a tray reset the whole next stale pass restores an unmatched window whose calls go through, whatever its cooldown was. |
| `Backoff.ResetForgetsFailures` | rust/crates/kakao-app/src/engine/caches.rs:38-44 | A reset empties the gauge and forgets attempts, cooldowns and warnings of every window, and nothing else. |
| `Backoff.EngineAttemptsAfterReset` | rust/crates/kakao-app/src/engine/caches.rs:38-44 | After a reset the back-off starts all over: 5 + (n - 20) / 301 attempts in the next n >= 20 unmatched ticks. |
| `Backoff.BooksSurvive` | rust/crates/kakao-app/src/engine/caches.rs:47-67 | A drain forgets the bookkeeping of exactly the windows it does not hold any more, a clean-up that of those neither held nor present. |
| `Ticking.RunTick` | rust/crates/kakao-app/src/engine/tick.rs:19-87 | A tick with nothing to watch and nothing held does nothing; any other reads, decides, cleans up, applies and restores what no longer matches, in that order. |
| `Ticking.TickIsAllowed` | rust/crates/kakao-app/src/engine/tick.rs:33-72 | What the undo argument assumes of a tick holds of every tick on the desktop as it is. |
| `Ticking.TickKeepsEverythingUndoable` | rust/crates/kakao-app/src/engine/tick.rs:19-87 | From reading the windows to restoring stale ones, one tick keeps the undo invariant. |
| `Ticking.PlannedWindowsStaySuppressed` | rust/crates/kakao-app/src/engine/tick.rs:68-120 | A window the plan hides, zero-sizes or closes is not brought back by the same tick. |
| `TickLaw.UnwantedWindowsComeBack` | rust/crates/kakao-app/src/engine/tick.rs:68-120 | A tick brings back a held, due window that its plan neither hides, closes nor empties, even without processes to watch; giving a view its size does not keep it. |
| `TickLaw.CleanupForgetsTheGone` | rust/crates/kakao-app/src/engine/tick.rs:89-99 | A clean-up forgets streaks and restore bookkeeping of exactly the windows neither present nor held. |
| `TickLaw.DryTickTouchesNothing` | rust/crates/kakao-app/src/engine/tick.rs:29-87 | Without permission to apply a tick touches no window and no snapshot. |
| `Search.EnumDescendants` | rust/crates/kakao-core/src/graph.rs:113-136 | The queue loop delivers the descendants level by level down to the depth bound, terminating on any graph. |
| `Search.DescendantsArePaths` | rust/crates/kakao-core/src/graph.rs:113-136 | (h, d) is delivered if and only if a child path of length d, 1 <= d <= bound, leads from the parent to h. |
| `Search.DescendantsOnceInOrder` | rust/crates/kakao-core/src/graph.rs:113-136 | On a forest each descendant of a top-level window appears once, nearest first. |
| `Search.SubtreeAnyIsPath` | rust/crates/kakao-core/src/signals.rs:126-214 | A depth-bounded recursive search succeeds if and only if some existing node on a path of at most that length, through existing nodes, passes the test. |
| `Search.SearchAgreesWithEnumeration` | rust/crates/kakao-core/src/signals.rs:126-214 | The recursive search and the queue enumeration agree. |
| `Tokens.AsciiWords` | rust/crates/kakao-core/src/layout.rs:41-55 | Exactly the maximal runs of lower-case ASCII letters and digits. |
| `Tokens.ContainsAnyAdToken` | rust/crates/kakao-core/src/layout.rs:10-39 | True if and only if some token of at most two ASCII alphanumerics is a whole run of the lowered text or some other non-empty token occurs in it. |
| `Tokens.InsideLongerWordIsNoMatch` | rust/crates/kakao-core/src/layout.rs:22-33 | A short token inside a longer run never matches there. |
| `FewerTokens.DroppingTokensCreatesNoMatch` | rust/crates/kakao-core/src/layout.rs:10-39 | Whatever window one evaluation matches for an action with a shorter token list, it matches for that action with the longer one. |
| `Leaves.TokenBelow` | rust/crates/kakao-core/src/signals.rs:117-145 | The token signal of a window is an advertisement token, a whole word if short, in the lowered title of it or of a window at most eight generations below. |
| `Leaves.LegacyMeans` | rust/crates/kakao-core/src/signals.rs:216-229 | The legacy title as a whole counts as exact, a configured non-empty part of a lowered title as substring, of the window or of one at most eight generations below. |
| `Leaves.MainMeans` | rust/crates/kakao-core/src/evaluate/inspect.rs:77-90 | A confirmed main window is an unowned watched top-level window of a main class with a view among its EVA children. |
| `Leaves.CandidateIs` | rust/crates/kakao-core/src/evaluate/inspect.rs:92-117 | A candidate is a window of a candidate class that a main window owns and that has no text, or that has no owner and shows a legacy title. |
| `Leaves.HostIs` | rust/crates/kakao-core/src/evaluate/apply.rs:181-184 | A popup host is a top-level window without owner that is no confirmed main window. |
| `Leaves.ChildIs` | rust/crates/kakao-core/src/evaluate/apply.rs:44-52 | A child of a main window is looked at exactly if no other window owns it. |
| `Leaves.PopupMatchIs` | rust/crates/kakao-core/src/signals.rs:256-280 | A popup match is a window of a popup class at most the configured number of generations below the host, with its distance. |
| `Leaves.WidgetMeans` | rust/crates/kakao-core/src/layout.rs:57-62 | A chrome widget is a window whose class starts with one of the configured prefixes. |
| `Leaves.BannerGeometry` | rust/crates/kakao-core/src/layout.rs:64-85 | A bottom banner has the configured height, takes the configured part of the width and ends within the margin of the lower edge, in terms of edges. |
| `Leaves.SizesSaturate` | rust/crates/kakao-core/src/model.rs:32-38 | Width and height are the differences of the edges, kept within 32 bits. |
| `Leaves.SignalsTell` | rust/crates/kakao-core/src/signals.rs:38-115 | The signals a verdict carries name exactly the evidence. |
| `EvaluateLoops.Recorder.Update` | rust/crates/kakao-core/src/evaluate/inspect.rs:119-128 | One verdict updates one streak, starting from an unseen state when there is none. |
| `EvaluateLoops.Recorder.Once` | rust/crates/kakao-core/src/evaluate/inspect.rs:137-153 | Matches always go through; a tracked miss is recorded unless a verdict was already recorded this tick. |
| `EvaluateLoops.UniqueSorted` | rust/crates/kakao-core/src/evaluate/mutation_log.rs:68-72 | The ascending list of the distinct handles. |
| `EvaluateLoops.FindPopupMatches` | rust/crates/kakao-core/src/signals.rs:256-280 | The descendants of popup-ad class, nearest first. |
| `EvaluateLoops.ApplyOneChild` | rust/crates/kakao-core/src/evaluate/apply.rs:87-151 | Close, resize and banner verdicts of one child, in that order. |
| `EvaluateLoops.ApplyOneHost` | rust/crates/kakao-core/src/evaluate/apply.rs:181-209 | Every match of a host is recorded; only an allowed host and its matches are retained, each once. |
| `EvaluateLoops.ApplyOnce` | rust/crates/kakao-core/src/evaluate/apply.rs:16-212 | The three apply loops compute the specified log and states. |
| `EvaluateLoops.InspectOnce` | rust/crates/kakao-core/src/evaluate/inspect.rs:155-356 | The three preview loops compute the specified payloads and states. |
| `EvaluateLoops.EvaluateGraph` | rust/crates/kakao-core/src/evaluate/orchestrate.rs:48-107 | The preview works on a copy, so plan and states do not depend on whether it is asked for. |
| `Law.ChildrenAreJudged` | rust/crates/kakao-core/src/evaluate/apply.rs:87-151 | One evaluation of a forest leaves a child of a confirmed main window with one match more for each kind of evidence it shows, with one miss if it is looked at or known and shows none, and else as it was; it is closed, hidden and placed exactly if that says so. |
| `Law.TopLevelsAreJudged` | rust/crates/kakao-core/src/evaluate/apply.rs:155-209 | A top-level window counts its legacy title if it is a candidate; it is hidden for that or as an unspared popup host, and closed only as a visible one of these. |
| `Law.PopupsAreJudged` | rust/crates/kakao-core/src/evaluate/apply.rs:179-209 | A popup advertisement counts a match exactly if its host is not spared, and then it is hidden, emptied and, if visible, closed. |
| `Law.OthersAreLeftAlone` | rust/crates/kakao-core/src/evaluate/apply.rs:16-212 | Every other window keeps its streaks and is not touched. |
| `Law.GuardMeans` | rust/crates/kakao-core/src/signals.rs:11-36 | A host is spared exactly if its title is unreadable or, trimmed, is neither empty nor holds a listed text while the rules ask for that. |
| `Law.PlanIsOutcome` | rust/crates/kakao-core/src/evaluate/mutation_log.rs:68-72 | The plan hides and closes exactly the windows so judged. |
| `Law.PlacementsExactly` | rust/crates/kakao-core/src/layout.rs:108-133 | A positive placement is planned exactly for a child of an inspected main window whose text starts with a view prefix, whose wanted size is at least 1x1 and which does not have it: it leaves main_view_padding of the height free for a main view, none for a lock view, and layout_shadow_padding of the width; an empty one exactly for an unspared popup host with a match and for each match below it. |
| `Misses.MissEndsStreak` | rust/crates/kakao-core/src/evaluate/inspect.rs:137-153 | A window the pass looks at and that shows no evidence has no streak after the evaluation, whatever it had before. |
| `Misses.TrailsAvoidMisses` | rust/crates/kakao-core/src/evaluate/inspect.rs:137-153 | Over whole sessions no streak reaches back to a tick in which its window was looked at without evidence, so there is none between the first and the last match behind a weak confirmation. |
| `Counters.CountersAddUp` | rust/crates/kakao-core/src/evaluate/mutation_log.rs:41-66 | The counters of an evaluation account for its entries. |
| `Reports.PreviewTellsAll` | rust/crates/kakao-core/src/evaluate/inspect.rs:155-356 | On any graph the preview reports every verdict it records, in order, with the runs of matches and misses of that moment and whether it still waits for confirmation. |
| `Listings.PreviewListsExactly` | rust/crates/kakao-core/src/evaluate/inspect.rs:137-356 | On any graph: every child of a confirmed main window, candidate and popup match with a match or a signal, or known before, is listed, and so is an allowed host; and nothing is listed without one of these reasons. |
| `Listings.RelevantMeansFlagged` | rust/crates/kakao-core/src/model.rs:115-123 | A signal is relevant exactly if anything but depth and guard differs from the blank one. |
| `Preview.PreviewAgreesWithApply` | rust/crates/kakao-core/src/evaluate/orchestrate.rs:48-107 | On any graph, rules, settings and states the planned hides are the payloads "hide" and "dismiss_popup", and the planned closes those "close" plus the visible ones "dismiss_popup". |
| `Preview.MainsAgree` | rust/crates/kakao-core/src/evaluate/inspect.rs:168-287 | The main-window loops agree although they track misses under different conditions. |
| `Preview.PopupsAgree` | rust/crates/kakao-core/src/evaluate/inspect.rs:316-356 | The popup loops agree although the preview also records the host. |
| `LockStep.EvaluationKeepsStep` | rust/crates/kakao-core/src/signals.rs:231-246 | After one evaluation of any graph every streak is the run of matches recorded for it, and a match was confirmed exactly if it is strong or its run is long enough. |
| `Verdicts.ApplyFits` | rust/crates/kakao-core/src/evaluate/apply.rs:16-212 | In one evaluation of a forest no window is matched twice except first to be closed and then to be hidden, and every logged target has the verdict that put it there. |
| `Verdicts.MatchIsNew` | rust/crates/kakao-core/src/evaluate/inspect.rs:316-324 | On a forest a popup match is neither a top-level window nor a child of a main window. |
| `Verdicts.MatchesApart` | rust/crates/kakao-core/src/evaluate/inspect.rs:316-324 | On a forest no window is a popup match of two hosts. |
| `Streaks.StreakIsTrail` | rust/crates/kakao-core/src/signals.rs:231-246 | In every reachable state, under any rules and on any graphs, a match streak is the length of the trailing run of matched verdicts. |
| `Streaks.TrailIsDistinct` | rust/crates/kakao-core/src/signals.rs:231-246 | The matches of that run come from distinct ticks if no tick finds both shapes in the window. |
| `Streaks.WeakVerdictNeedsDistinctTicks` | rust/crates/kakao-core/src/signals.rs:231-246 | A weak verdict acted upon has matches in at least max(1, weak_signal_confirm_ticks) distinct ticks up to now, with no miss between. |
| `Streaks.TrailMeans` | rust/crates/kakao-core/src/signals.rs:231-246 | A trail is exactly the matches since the last miss or forgetting. |
| `Streaks.EveryTargetIsJustified` | rust/crates/kakao-core/src/evaluate/apply.rs:87-209 | Every window planned to be hidden or closed is part of an allowed popup, strongly matched now, or confirmed over distinct ticks. |
| `Overlap.MatchedTwiceExactlyIfOverlapping` | rust/crates/kakao-core/src/evaluate/inspect.rs:130-153 | In one evaluation a window is matched twice if and only if the EVA class carries a chrome-widget prefix and the window is an empty EVA child of a confirmed main window with text, without scroll area, with a token below it or, if the rules let looks decide, the looks of a banner. |
| `Overlap.OneTickConfirmsWeakly` | rust/crates/kakao-core/src/evaluate/apply.rs:87-151 | A concrete graph and rules with weak_signal_confirm_ticks == 2 for which the very first tick confirms a weak verdict. |
| `Overlap.DistinctClassesNeverOverlap` | rust/crates/kakao-core/src/evaluate/inspect.rs:130-153 | If the EVA class carries no chrome-widget prefix, as in the default rules, no window is matched twice. |
| `Evidence.MatchedExactlyOnEvidence` | rust/crates/kakao-core/src/evaluate/apply.rs:30-209 | In one evaluation a window is matched for an action if and only if it shows the evidence: an empty EVA child (in the company of an advertisement, if the rules ask for it) to be closed, a chrome-widget banner or token child or a legacy candidate to be hidden, a popup advertisement below an allowed host to be dismissed. |
| `Evidence.AdSignalMeans` | rust/crates/kakao-core/src/evaluate/apply.rs:68-75 | The signal of a main window is that some child of it shows a legacy title or a banner. |
| `Evidence.PlanRestsOnEvidence` | rust/crates/kakao-core/src/evaluate/apply.rs:87-178 | Whatever is closed or hidden and is not part of an allowed popup shows that evidence now. |
| `Provenance.PlanProvenance` | rust/crates/kakao-core/src/evaluate/apply.rs:30-238 | Every target is a child of a confirmed main window, a legacy candidate or part of an allowed popup; only popups are zero-sized, each also hidden; view resizes are positive. |
| `Provenance.ViewResizeSettles` | rust/crates/kakao-core/src/layout.rs:108-133 | A planned view resize is at least 1x1, and once it went through it is not planned again; `Law.PlacementsExactly` says which sizes these are. |
| `Provenance.PlansFitTheEngine` | rust/crates/kakao-core/src/evaluate/apply.rs:127-132 | View resizes only concern child windows, as the engine assumes. |
| `Provenance.MainWindowIsTargetOnlyIfLegacy` | rust/crates/kakao-core/src/evaluate/inspect.rs:92-117 | A confirmed main window is never closed or placed, and is a hide candidate if and only if its subtree holds a legacy title and its class is a candidate class. |
| `Trees.OnePassIsEnough` | rust/crates/kakao-app/src/graph_build.rs:29-46 | Filtering one enumeration of the top window by GetParent gives the child list of every window below it, order included, as enumerating below that window would, depth-first or breadth-first. |
| `Trees.DfsPicksChildren` | rust/crates/kakao-app/src/graph_build.rs:29-46 | The depth-first half, for any forest. |
| `Trees.BfsPicksChildren` | rust/crates/kakao-win32/src/fake.rs:377-390 | The breadth-first half, for any forest. |
| `Trees.OrdersArePermutations` | rust/crates/kakao-win32/src/fake.rs:377-390 | Both orders list every window equally often. |
| `Trees.CollectDescendants` | rust/crates/kakao-win32/src/fake.rs:377-390 | The growing-queue loop is the breadth-first order. |
| `GraphBuild.ChildMap` | rust/crates/kakao-app/src/graph_build.rs:36-46 | One pass over the enumeration files every window under its GetParent, in order. |
| `GraphBuild.GraphBuilder.LoadTree` | rust/crates/kakao-app/src/graph_build.rs:48-86 | The recursive load, terminating by unvisited windows whatever GetParent says. |
| `GraphBuild.BuildGraph` | rust/crates/kakao-app/src/graph_build.rs:6-27 | Watched top-level windows are loaded in handle order; without processes the graph is empty. |
| `BuiltGraph.BuiltGraphIsForest` | rust/crates/kakao-app/src/graph_build.rs:48-86 | Even if GetParent contradicts the enumerations the graph is a forest of live windows of the watched processes whose edges are recorded on both ends. |
| `BuiltGraph.BuiltGraphFits` | rust/crates/kakao-app/src/graph_build.rs:60-77 | Rectangles and tree positions are those of the desktop, as the undo argument assumes. |
| `BuiltGraph.GraphIsTheWindowForest` | rust/crates/kakao-app/src/graph_build.rs:6-86 | On a consistent desktop the graph is exactly the trees of the watched top-level windows, with their process ids, and nothing else. |
| `BuiltGraph.NodesRepeatTheSystem` | rust/crates/kakao-app/src/graph_build.rs:60-77 | For any GetParent each node answers it as the system does, has an owner exactly if it is top-level and GetParent is not zero, and carries the class, text, rectangle and visibility the system reports. |
| `Installer.Helper.SyncedCopy` | rust/crates/kakao-updater/src/transaction.rs:37-56 | The source is opened once; a complete synced copy of a private source, or of the download if nobody changed it meanwhile; on failure at most the temporary is left. |
| `Installer.Helper.CopyChunks` | rust/crates/kakao-updater/src/transaction.rs:53-54 | The chunk loop terminates although others may change the open file, or rename and replace it, between chunks; the copy consists of pieces the open file had, each at its place, at moments in order, up to a moment at which it had no more. |
| `Installer.CopyMeans` | rust/crates/kakao-updater/src/transaction.rs:38-54 | However the source is disturbed: the file read is the one found under its path when it was opened, every byte of the copy stood at its place in it at some moment, and at a later one it was no longer than the copy. |
| `Installer.UndisturbedIsWhole` | rust/crates/kakao-updater/src/transaction.rs:78-82 | A download that keeps its content, under its path and as the file opened there, is received whole, and is not empty. |
| `Installer.Helper.ReplaceFile` | rust/crates/kakao-updater/src/transaction.rs:12-28 | However often it is retried, every moment shows the files before or after the rename, and after it the destination is complete. |
| `Installer.Helper.Prepare` | rust/crates/kakao-updater/src/transaction.rs:67-97 | Two complete siblings, the new one matching the expected hash, and the installed files as they were. |
| `Installer.Helper.Commit` | rust/crates/kakao-updater/src/transaction.rs:99-106 | Every moment of the two renames has a complete image installed, and the old one in the backup once the new one is; each error tells which of the two renames failed. |
| `Installer.Helper.RestorePreviousVersion` | rust/crates/kakao-updater/src/transaction.rs:111-121 | The backup becomes the installed file in one rename and stays, or the installed file is as it was. |
| `Installer.Helper.RecoverInterruptedSwap` | rust/crates/kakao-updater/src/lib.rs:188-205 | A missing installed file is replaced by the backup in one step; the image to come back to is never lost. |
| `Installer.Helper.Validate` | rust/crates/kakao-updater/src/lib.rs:248-288 | Nothing is copied unless the installed file is there and the replacement is another, non-empty file with the expected hash. |
| `Installer.Helper.LaunchOrRollBack` | rust/crates/kakao-updater/src/lib.rs:296-315 | The new image is launched once if that was asked for and else not at all; a failed launch ends with the old image installed, or with the new one and the old one still in the backup. |
| `Installer.Helper.UpdateExecutable` | rust/crates/kakao-updater/src/lib.rs:233-316 | Every moment of a run is safe; success means the new image, any error but a failed rollback the old one; whatever the outcome, the new image was read from a non-empty download to its end and, undisturbed, is the download as the run found it. The new image is launched exactly if asked for and in place; "current missing" means that installed file and backup are, and after a wait timeout nothing has changed. A temporary file is left only if its removal failed; if nothing fails, outcome and files are exactly those of the two rows below. |
| `Campaign.RunHelper` | rust/crates/kakao-updater/src/lib.rs:233-316 | The guarantees of one run as a value: at most one temporary file left for each failed step, and without failures and interference exactly the outcome and files stated next. |
| `Campaign.VerdictMeans` | rust/crates/kakao-updater/src/lib.rs:248-288 | When nothing fails: success exactly for a separate, non-empty download with the expected hash beside an installed file, and each error exactly for the first thing wrong, in the order of the checks. |
| `Campaign.UpdatedMeans` | rust/crates/kakao-updater/src/lib.rs:251-315 | The files then, one by one: the download in place of the installed file and neither backup nor download left; after an error what was found, without a download of the wrong hash. |
| `Campaign.HashesAgree` | rust/crates/kakao-updater/src/lib.rs:274-283 | Two hashes agree exactly if they differ in the case of ASCII letters at most. |
| `Campaign.EveryMomentIsInstalled` | rust/crates/kakao-updater/src/transaction.rs:1-2 | Cut the helper at any step of any number of attempts: a complete file is installed, it is the initial image or one that was read from a download to its end, undisturbed all of it, and verified if a hash was expected; until the launch is confirmed the replaced image is in the backup. |
| `Campaign.OnlyWholeDownloadsAreInstalled` | rust/crates/kakao-updater/src/transaction.rs:1-2 | With or without a hash nothing half-copied or empty is installed at any moment, as long as each download, and the file opened as it, keeps its content. |
| `Campaign.InstalledBytesWereThere` | rust/crates/kakao-updater/src/transaction.rs:38-54 | Otherwise every installed byte stood at its place in the file that was the download when it was opened, and an empty update means that this file was empty at some moment. |
| `Campaign.TruncatedDownloadIsInstalled` | rust/crates/kakao-updater/src/transaction.rs:78-90 | A run without a hash whose three-byte download is cut to one byte between check and copy: it keeps every guarantee and installs the one byte. |
| `Campaign.EveryStartIsInstalled` | rust/crates/kakao-updater/src/lib.rs:251-254 | Every attempt after a cut finds a complete accepted image installed. |
| `Campaign.MissingImageIsRecoverable` | rust/crates/kakao-updater/src/lib.rs:183-205 | A run that starts with only a backup never loses it before something complete is installed. |
| `Control.OffRestore.Retry` | rust/crates/kakao-app/src/engine/control.rs:16-46 | A drain happens if and only if there is something to restore and it is due; its failures push the next one back. |
| `Control.FailingDrainsAreAttempts` | rust/crates/kakao-app/src/engine/control.rs:16-46 | While every drain leaves something behind, the machine drains at exactly the attempts of its cadence, whenever it is asked. |
| `Control.CleanCallsReset` | rust/crates/kakao-app/src/engine/control.rs:16-46 | Without permission nothing changes; with nothing held, or after a drain that leaves nothing, the failures are forgotten and the next drain is due. |
| `Control.HookRetry.RecordFailure` | rust/crates/kakao-app/src/engine/control.rs:67-70 | One failure more, and no installation before its delay has passed. |
| `Control.FailuresSaturate` | rust/crates/kakao-app/src/engine/control.rs:67-70 | The counter of failures stops at the largest 32-bit number, and the next attempt lies in the future. |
| `Control.HookInstallsAreBounded` | rust/crates/kakao-app/src/engine/control.rs:54-76 | With every installation failing, the k-th comes at least the first k - 1 of the delays 1, 2, 4, 8, 16, 32, 32, ... seconds after the first. |
| `Control.AttemptsAreSpaced` | rust/crates/kakao-app/src/engine/control.rs:31-45 | Whenever and however often the machine is asked, k failed attempts after the first lie at least the whole hold-off apart. |
| `Control.OffDrainsAreBounded` | rust/crates/kakao-app/src/engine/control.rs:31-45 | The k-th failing drain comes at least 200+400+800+1600+3200+5000(k-6) ms after the first for k >= 6, and the partial sums before. |
| `Control.WaitIsExact` | rust/crates/kakao-app/src/engine/control.rs:47-51 | Sleeping exactly as long as told makes the next call due, and nothing shorter does. |
| `Control.ExactCallsReachTheBound` | rust/crates/kakao-app/src/engine/control.rs:16-51 | A worker that sleeps as told drains exactly at those times. |
| `Worker.ReconcileBacksOff` | rust/crates/kakao-app/src/engine/schedule.rs:59-82 | Quiet never shortens the interval, activity never lengthens it, nothing backs off without the hook, and the larger configured bound is never exceeded. |
| `Worker.Loop.KeepHook` | rust/crates/kakao-app/src/engine/worker.rs:225-244 | The hook is dropped when the processes changed and installed when missing and due. |
| `Worker.Loop.Tick` | rust/crates/kakao-app/src/engine/worker.rs:289-315 | After a tick the pending event is answered, the last pass is the end of the tick, and a burst is spent unless the tick panicked into the long pause. |
| `Worker.Loop.Iterate` | rust/crates/kakao-app/src/engine/worker.rs:167-316 | One iteration: switches, processes, hook, events, then absent wait, hold or tick; what each of these means is in `Bursts` and `WorkerRuns`. |
| `Worker.Loop.RunWorker` | rust/crates/kakao-app/src/engine/worker.rs:167-316 | The loop over any finite behaviour of the outside, up to the stop request. |
| `WorkerRuns.HookServesCurrentProcesses` | rust/crates/kakao-app/src/engine/worker.rs:184-244 | After any run and any enabled iteration an installed hook was installed for exactly the current processes, and degraded holds if and only if there are processes and no hook. |
| `WorkerRuns.EventsAreAnsweredInTime` | rust/crates/kakao-app/src/engine/worker.rs:245-289 | Whatever happened before, while on, with processes and no toggle, every tick that answers events starts within a burst interval of the first of them (or of the entry into that stretch), plus the time its own iteration spent on a process scan. |
| `WorkerRuns.AnswersInTimeExactlyIfScansFit` | rust/crates/kakao-app/src/engine/worker.rs:189-289 | Whatever happened before, all answers of such a stretch start within the burst interval of their events (or of the entry) if and only if in every answering iteration the event is new, or no process scan is due, or the scan is over before the interval is. |
| `WorkerRuns.LongScanDelaysTheAnswer` | rust/crates/kakao-app/src/engine/worker.rs:194-214 | A scan that does not fit: for every delay there is a run from the start whose answering tick is late by exactly that much. |
| `WorkerRuns.EveryStateIsClocked` | rust/crates/kakao-app/src/engine/worker.rs:167-316 | In every reachable state neither the last pass nor a pending event lies in the future. |
| `WorkerRuns.EventIsNotForgotten` | rust/crates/kakao-app/src/engine/worker.rs:273-289 | A pending event stays pending until a tick, and the first tick answers it. |
| `WorkerRuns.SteadyStepResponds` | rust/crates/kakao-app/src/engine/worker.rs:272-316 | One steady iteration either answers the pending event or keeps it with its time. |
| `WorkerRuns.TicksKeepTheirDistance` | rust/crates/kakao-app/src/engine/worker.rs:256-307 | Without a toggle consecutive ticks are at least min(burst interval, reconcile interval) apart, so j - i ticks take at least that many floors. |
| `WorkerRuns.BurstsAreFinite` | rust/crates/kakao-app/src/engine/worker.rs:220-224 | After any run, from the last event or process change on, at most clamp(burst_scan_iterations, 1, 10) ticks run ahead of the reconcile interval, and one more for each tick that panicked into the long pause. |
| `WorkerRuns.BurstsOverrunExactly` | rust/crates/kakao-app/src/engine/worker.rs:263-315 | With panicking ticks counted, some run and calm continuation has more than clamp(burst_scan_iterations, 1, 10) early ticks if and only if the burst interval is below the longest reconcile interval of the configuration (hooked, and quiet for 160 seconds). |
| `WorkerRuns.PanicsOutliveTheBurst` | rust/crates/kakao-app/src/engine/worker.rs:308-315 | For every such configuration and every n, a run from the start after which n panicking ticks all run ahead of the reconcile interval, without any event or process change. |
| `Bursts.BurstsTakePlace` | rust/crates/kakao-app/src/engine/worker.rs:219-315 | Whatever happened before: after an iteration that drains a relevant follow-up event or finds other processes, clamp(burst_scan_iterations, 1, 10) ticks take place in any quiet continuation of completing ticks, each after the first as soon as the burst interval since the last is over, apart from its own scan; until then the next one is not overdue. |
| `Bursts.EventsAreNoticed` | rust/crates/kakao-app/src/engine/worker.rs:245-255 | An event of a watched process, wherever it stands among the drained ones, makes a tick pending; events of others change nothing. |
| `Bursts.NoTickIsOverdue` | rust/crates/kakao-app/src/engine/worker.rs:256-316 | Whatever happened before, while on and with processes, no more than the longest configured wait passes between one pass and the next look, however sleeps are cut short. |
| `Bursts.SleepsUntilDue` | rust/crates/kakao-app/src/engine/worker.rs:273-286 | A sleep ends when the tick is due at the latest, without a hook also when its installation is due, and exactly at the first of the two if not cut short. |
| `Bursts.FlippedSwitchTicks` | rust/crates/kakao-app/src/engine/worker.rs:175-183 | After a flipped switch the iteration ticks exactly if an event is pending, a burst is on, or the reconcile interval is at most ten seconds and the scan. |
| `Bursts.ResetDrainsAtOnce` | rust/crates/kakao-app/src/engine/worker.rs:168-182 | A flipped switch or a tray reset makes the next drain due at once and starts its back-off afresh; nothing else does; processes are looked up anew exactly when switched on. |
| `Bursts.BurstPace` | rust/crates/kakao-app/src/engine/worker.rs:164-165 | Ticks and distance of a burst are the configured ones, within one to ten ticks and ten to a thousand milliseconds. |
| `Bursts.ReconcileDoubles` | rust/crates/kakao-app/src/engine/schedule.rs:59-82 | With the hook the quiet interval is the idle one for ten seconds, then doubles every ten seconds up to the configured bound. |
| `Bursts.ReconMeans` | rust/crates/kakao-app/src/engine/worker.rs:257-258 | Within two seconds of a relevant event the worker polls, otherwise it reconciles as quiet and hook allow. |
| `Bursts.ScanPace` | rust/crates/kakao-app/src/engine/schedule.rs:35-57 | How often processes are looked for, while present and while absent. |
| `Bursts.AbsentSleepsBriefly` | rust/crates/kakao-app/src/engine/worker.rs:259-271 | Without processes the worker sleeps until the next look is due, between ten milliseconds and a second, and forgets the last event. |
| `Bursts.OffSleepsUntilDue` | rust/crates/kakao-app/src/engine/worker.rs:184-193 | Switched off there is no hook, the drain machine is asked once, and the sleep ends when it is due. |
| `Bursts.HookIsTried` | rust/crates/kakao-app/src/engine/worker.rs:225-244 | A missing hook is tried for exactly when wanted and due, at once for new processes, and only a failed attempt is held off. |
| `Bursts.TickThenSleeps` | rust/crates/kakao-app/src/engine/worker.rs:307-315 | After a tick the worker sleeps five seconds from the third panic in a row on, the burst interval while a burst is on, and otherwise not at all. |
| `Bursts.TicksNeedProcesses` | rust/crates/kakao-app/src/engine/worker.rs:259-271 | Without processes nothing is looked at and the drain machine is asked instead. |
| `Bursts.PausesFollowPanics` | rust/crates/kakao-app/src/engine/worker.rs:308-311 | In every run the long pause follows a tick exactly if it was at least the third panic in a row. |
| `Canonical.EscapeJsonString` | rust/crates/kakao-app/src/updater/canonical.rs:38-52 | The loop escapes character by character. |
| `Canonical.SortedKeysAreSorted` | rust/crates/kakao-app/src/updater/canonical.rs:26-28 | Every key once, ascending by code point. |
| `Decoder.EscapeRoundTrip` | rust/crates/kakao-app/src/updater/canonical.rs:38-52 | A decoder for section 7 of RFC 8259 undoes the escaping of every string. |
| `Decoder.ValueRoundTrip` | rust/crates/kakao-app/src/updater/canonical.rs:15-36 | Reading a printed value gives it back and stops exactly at its end. |
| `Decoder.DecodeUndoesDumps` | rust/crates/kakao-app/src/updater/canonical.rs:15-36 | decode(dumps(v)) = v for every value, whatever order object members were inserted in. |
| `Decoder.DumpsIsInjective` | rust/crates/kakao-app/src/updater/canonical.rs:15-36 | Two values with the same canonical text are the same value. |
| `Spelling.CharIsSpelled` | rust/crates/kakao-app/src/updater/canonical.rs:38-52 | Of all the spellings a decoder reads, each character gets the shortest one, with lower-case hexadecimal digits, and only where it must be escaped. |
| `Spelling.EscapedIsShortest` | rust/crates/kakao-app/src/updater/canonical.rs:38-52 | So an escaped text has exactly the length of the shortest spelling and no control characters. |
| `Spelling.LeqMeans` | rust/crates/kakao-app/src/updater/canonical.rs:26-28 | The key order is that of the first differing code point, a proper beginning first. |
| `Spelling.MembersInOrder` | rust/crates/kakao-app/src/updater/canonical.rs:24-34 | An object is written as its members in that order, each once, joined by commas, and nothing else. |

## Left out

- Guards.NoForeignWindow: what a check saw stays behind the handle until the calls it guards unless it dies; that the system gives the handle to another window between the check and the call cannot be excluded by the code either and is outside the model.
- Campaign.EveryMomentIsInstalled: a rename is one durable step; a file system that loses a completed rename in a power cut is not modelled, only unsynced contents are lost.
- WorkerRuns.EventsAreAnsweredInTime: counts from the drain of an event, not from the moment the window system raised it; a sleep never lasts longer than asked for.
- Decoder.DecodeUndoesDumps: numbers are integers; the text of floating-point numbers is not modelled. Agreement with Python's encoder for U+0008, U+000C and U+007F to U+009F is not claimed.
- Tokens.ContainsAnyAdToken: lower-casing is an arbitrary function that maps the empty text to itself.
- Ticking.RunTick: the windows do not change while the graph is read; the engine's own checks cover what changes afterwards.
- Real Win32 calls, the event hook's callback, process watching, mutexes, the registry and the coordinates of child windows relative to their parents: the desktop object stands for them.
- WM_CLOSE takes away an arbitrary set of windows; that the set is a subtree is not used.
- The tray, menus, dialogs, the command line, dump and self-check output, tracing, log texts and the last-error string.
- The `show` list and the `visible` map of the mutation log, which nothing reads, and the debug fields of main-window payloads.
- The final sort of the preview payloads.
- Overflow of 32-bit additions in layout arithmetic; widths and heights saturate as in the code, and the banner width ratio is a real number.
- Panic containment itself and the shutdown join timeout; a tick reports whether it completed.
- Canonicalisation of paths: two paths are the same file only if they are equal.
- Hash, signature and download code: the hash is an arbitrary function of the bytes, compared as the code compares it.
- Configuration loading and healing, version comparison and start-up registration, which would only add easy members.

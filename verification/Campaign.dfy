/** Any number of update attempts, each cut anywhere. */
module Campaign {
  import opened Model
  import opened Installer

  /** `disturbed` says that another program changed the download or the like during the run. */
  datatype Run = Run(
    start: Disk,
    trace: seq<Moment>,
    end: Disk,
    outcome: Outcome,
    replacement: Path,
    update: Option<Bytes>,
    expected: Option<string>,
    disturbed: bool)

  /** One helper process on the disk it finds. `left` are the files it failed to remove. */
  method RunHelper(start: Disk, interventions: nat, faults: nat, digest: Bytes -> string, replacement: Path, relaunch: bool, expected: Option<string>)
    returns (r: Outcome, end: Disk, ghost run: Run, ghost left: set<Path>)
    ensures run.start == start && run.end == end && run.outcome == r && run.replacement == replacement && run.expected == expected
    ensures HelperRun(run, digest)
    ensures interventions == 0 ==> !run.disturbed
    ensures interventions == 0 && faults == 0 ==>
              r == Verdict(Recovered(start.files), replacement, expected, digest) && end.files == Updated(start.files, replacement, r)
    ensures |left| <= faults && Tidy(start.files, end.files, {}, left)
    ensures Image(start).Some? && r.Ok? && interventions == 0 ==>
              replacement in start.files && start.files[replacement] != [] && Durable(end, Current, start.files[replacement])
    ensures Image(start).Some? && r.Err? && r.error != RollbackFailed ==> Shows(end, Image(start).value)
  {
    var helper := new Helper(start, interventions, faults, digest);
    ghost var update: Option<Bytes>;
    r, update := helper.UpdateExecutable(replacement, relaunch, expected);
    end, left := helper.Now(), helper.stuck;
    run := Run(start, helper.trace, end, r, replacement, update, expected, helper.interventions < interventions);
  }

  /** When nothing goes wrong: which of its inputs the helper accepts, and what it rejects them for, in the
      order in which it looks. */
  lemma VerdictMeans(files: map<Path, Bytes>, replacement: Path, expected: Option<string>, digest: Bytes -> string)
    ensures var found, r := Recovered(files), Verdict(Recovered(files), replacement, expected, digest);
            var separate := replacement in found && replacement != Current && replacement != Backup;
            var genuine := separate && (expected.Some? ==> EqIgnoreAsciiCase(digest(found[replacement]), expected.value));
            && (r == Err(CurrentMissing) <==> Current !in files && Backup !in files)
            && (Current in found ==>
                 && (r == Err(ReplacementMissing) <==> replacement !in found)
                 && (r == Err(ReplaceFailed) <==> replacement in found && !separate)
                 && (r == Err(ReplacementEmpty) <==> separate && found[replacement] == [])
                 && (r == Err(ReplacementHashMismatch) <==> separate && found[replacement] != [] && !genuine)
                 && (r == Ok <==> genuine && found[replacement] != []))
  {
  }

  predicate SameLetter(x: char, y: char) {
    ('A' <= x <= 'Z' && y as int == x as int + 32) || ('A' <= y <= 'Z' && x as int == y as int + 32)
  }

  /** Hashes may differ in the case of letters and in nothing else. */
  lemma HashesAgree(a: string, b: string)
    ensures EqIgnoreAsciiCase(a, b) <==> |a| == |b| && forall i | 0 <= i < |a| :: a[i] == b[i] || SameLetter(a[i], b[i])
  {
    if EqIgnoreAsciiCase(a, b) {
      forall i | 0 <= i < |a| ensures a[i] == b[i] || SameLetter(a[i], b[i]) {
        CaseOnly(a[i], b[i]);
      }
    }
  }

  lemma CaseOnly(x: char, y: char)
    ensures AsciiLower(x) == AsciiLower(y) <==> x == y || SameLetter(x, y)
  {
  }

  /** And what it leaves behind, file by file. */
  lemma UpdatedMeans(files: map<Path, Bytes>, replacement: Path, expected: Option<string>, digest: Bytes -> string, p: Path)
    ensures var r := Verdict(Recovered(files), replacement, expected, digest);
            var after, interrupted := Updated(files, replacement, r), Current !in files && Backup in files;
            var found: map<Path, Bytes> := if interrupted then files[Current := files[Backup]] - {Backup} else files;
            match r
            case Ok =>
              && Current in after && after[Current] == found[replacement] && Backup !in after && replacement !in after
              && (p != Current && p != Backup && p != replacement ==> SameIn(files, after, p))
            case Err(e) => if e == ReplacementHashMismatch && p == replacement then p !in after else SameIn(found, after, p)
  {
  }

  predicate SameIn(a: map<Path, Bytes>, b: map<Path, Bytes>, p: Path) { (p in a <==> p in b) && (p in a ==> a[p] == b[p]) }

  ghost predicate HelperRun(run: Run, digest: Bytes -> string) {
    && run.trace != [] && run.trace[0].disk == run.start && SameInstalled(run.trace[|run.trace| - 1].disk, run.end)
    && RunSafe(run.start, run.trace, run.end, run.outcome, run.update, run.expected, digest)
    && (run.outcome.Ok? ==> run.update.Some?)
    && (run.update.Some? ==> Genuine(run, run.update.value))
  }

  /** The content was read from the download, which was not empty when checked, piece by piece to its end;
      without interference it is all of the download as the run found it. */
  ghost predicate Genuine(run: Run, content: Bytes) {
    && Received(run.trace, run.replacement, content)
    && (!run.disturbed ==> run.replacement in run.start.files && content == run.start.files[run.replacement] != [])
  }

  /** What a crash may leave of one of the two files: synced content survives, a missing file stays missing. */
  predicate Survives(before: Disk, after: Disk, p: Path) {
    if p in before.files then p !in before.unsynced ==> Durable(after, p, before.files[p]) else p !in after.files
  }

  /** The next attempt starts where some moment of this one was cut. */
  ghost predicate CutTo(run: Run, next: Disk) {
    exists k :: CutAt(run, k, next)
  }

  predicate CutAt(run: Run, k: int, next: Disk) {
    0 <= k < |run.trace| && Survives(run.trace[k].disk, next, Current) && Survives(run.trace[k].disk, next, Backup)
  }

  ghost predicate Attempts(runs: seq<Run>, digest: Bytes -> string) {
    && (forall i | 0 <= i < |runs| :: HelperRun(runs[i], digest))
    && (forall i | 0 <= i < |runs| - 1 :: CutTo(runs[i], runs[i + 1].start))
  }

  /** The initial image, or a genuine copy of the download that an attempt up to the i-th put in place,
      verified if it was asked to. */
  ghost predicate Accepted(runs: seq<Run>, i: int, initial: Bytes, content: Bytes, digest: Bytes -> string) {
    content == initial || exists j :: 0 <= j <= i && j < |runs| && Installs(runs[j], content, digest)
  }

  ghost predicate Installs(run: Run, content: Bytes, digest: Bytes -> string) {
    && run.update == Some(content) && Genuine(run, content)
    && (run.expected.Some? ==> EqIgnoreAsciiCase(digest(content), run.expected.value))
  }

  lemma MomentInstalled(run: Run, k: nat, image: Bytes, digest: Bytes -> string)
    requires HelperRun(run, digest) && k < |run.trace| && Durable(run.start, Current, image)
    ensures var d := run.trace[k].disk;
            Current in d.files && Durable(d, Current, d.files[Current])
            && (d.files[Current] == image || Installs(run, d.files[Current], digest))
    ensures run.trace[k].disk.files[Current] != image && !run.trace[k].confirmed ==> Durable(run.trace[k].disk, Backup, image)
  {
    assert MomentSafe(run.trace[k], image, run.update, true);
  }

  /** At the start of every attempt a complete accepted image is installed. */
  lemma {:induction false} EveryStartIsInstalled(runs: seq<Run>, i: nat, initial: Bytes, digest: Bytes -> string)
    requires Attempts(runs, digest) && i < |runs| && Durable(runs[0].start, Current, initial)
    ensures Current in runs[i].start.files
    ensures Durable(runs[i].start, Current, runs[i].start.files[Current])
    ensures Accepted(runs, i - 1, initial, runs[i].start.files[Current], digest)
  {
    if i > 0 {
      EveryStartIsInstalled(runs, i - 1, initial, digest);
      var before := runs[i - 1];
      assert CutTo(before, runs[i].start);
      var k :| CutAt(before, k, runs[i].start);
      MomentInstalled(before, k, before.start.files[Current], digest);
      assert Survives(before.trace[k].disk, runs[i].start, Current);
    }
  }

  /** Cut the helper wherever you like, as often as you like: at every moment a complete file is installed,
      and it is the initial image or a download a helper read to its end and verified. If the current attempt has
      already replaced the image it found and the launch is not confirmed, that image is in the backup. */
  lemma EveryMomentIsInstalled(runs: seq<Run>, i: nat, k: nat, initial: Bytes, digest: Bytes -> string)
    requires Attempts(runs, digest) && i < |runs| && k < |runs[i].trace| && Durable(runs[0].start, Current, initial)
    ensures Current in runs[i].start.files
    ensures var m, found := runs[i].trace[k], runs[i].start.files[Current];
            && Current in m.disk.files
            && Durable(m.disk, Current, m.disk.files[Current])
            && Accepted(runs, i, initial, m.disk.files[Current], digest)
            && (m.disk.files[Current] != found && !m.confirmed ==> Durable(m.disk, Backup, found))
  {
    EveryStartIsInstalled(runs, i, initial, digest);
    MomentInstalled(runs[i], k, runs[i].start.files[Current], digest);
    var content := runs[i].trace[k].disk.files[Current];
    assert content == runs[i].start.files[Current] || Installs(runs[i], content, digest);
  }

  /** Nothing half-copied is ever installed: as long as every download keeps its content while it is there,
      what is installed at any moment is the initial image or the whole of a download, and not empty. */
  lemma OnlyWholeDownloadsAreInstalled(runs: seq<Run>, i: nat, k: nat, initial: Bytes, digest: Bytes -> string)
    requires Attempts(runs, digest) && i < |runs| && k < |runs[i].trace| && Durable(runs[0].start, Current, initial)
    requires forall j | 0 <= j <= i :: Steady(runs[j])
    ensures Current in runs[i].trace[k].disk.files
    ensures var installed := runs[i].trace[k].disk.files[Current];
            installed == initial || exists j :: 0 <= j <= i && IsDownload(runs[j], installed)
  {
    EveryMomentIsInstalled(runs, i, k, initial, digest);
    var installed := runs[i].trace[k].disk.files[Current];
    if installed != initial {
      var j :| 0 <= j <= i && j < |runs| && Installs(runs[j], installed, digest);
      var content: Bytes :| Always(runs[j].trace, runs[j].replacement, content);
      UndisturbedIsWhole(runs[j].trace, runs[j].replacement, content, installed);
      assert IsDownload(runs[j], installed);
    }
  }

  /** The download has one content at all moments of the run at which it is there. */
  ghost predicate Steady(run: Run) { exists content :: Always(run.trace, run.replacement, content) }

  /** The whole and only content of the download, and it is not empty. */
  predicate IsDownload(run: Run, content: Bytes) {
    content != [] && Always(run.trace, run.replacement, content) && SeenNonEmpty(run.trace, run.replacement)
  }

  /** However it is disturbed, moved away or replaced: what a run installs was read from the file found as
      the download when it was opened; every byte stood at its place in that file at some moment, and at
      some later one the file ended there. An empty update means an emptied file. */
  lemma InstalledBytesWereThere(run: Run, content: Bytes, digest: Bytes -> string) returns (begin: nat, end: nat)
    requires Installs(run, content, digest)
    ensures OpenedAt(run.trace, run.replacement, begin) && begin <= end && EndsAt(run.trace, run.replacement, content, end)
    ensures forall i: nat | i < |content| :: Stood(run.trace, run.replacement, end, i, content[i])
    ensures content == [] ==> run.trace[end].disk.handle.content == []
  {
    begin, end := CopyMeans(run.trace, run.replacement, content);
  }

  // ---------------------------------------------------------------- without a hash a truncated update passes

  const DOWNLOAD := Other("download")

  function DiskOf(current: Bytes, download: Bytes, more: map<Path, Bytes>, handle: Handle): Disk {
    Disk(map[Current := current, DOWNLOAD := download] + more, {}, handle)
  }

  /** The download is checked while it has three bytes, cut down to one, opened, copied and installed. */
  const TRUNCATED := Run(
    DiskOf([9], [1, 2, 3], map[], Closed),
    [Moment(DiskOf([9], [1, 2, 3], map[], Closed), false),
     Moment(DiskOf([9], [1], map[], Closed), false),
     Moment(DiskOf([9], [1], map[], Reading(DOWNLOAD, [1])), false),
     Moment(DiskOf([9], [1], map[Temporary(0) := [1]], Reading(DOWNLOAD, [1])), false),
     Moment(DiskOf([9], [1], map[Temporary(0) := [1], Backup := [9]], Closed), false),
     Moment(DiskOf([1], [1], map[Backup := [9]], Closed), false),
     Moment(DiskOf([1], [1], map[Backup := [9]], Closed), true)],
    DiskOf([1], [1], map[Backup := [9]], Closed), Ok, DOWNLOAD, Some([1]), None, true)

  lemma TruncatedIsReceived()
    ensures Genuine(TRUNCATED, [1])
  {
    var trace, pieces := TRUNCATED.trace, [Piece(2, 0)];
    assert ReadInOrder(trace, DOWNLOAD, pieces, [1]) by {
      assert pieces[..|pieces| - 1] == [] && [1][0..] == [1] && [1][..0] == [];
      assert HasPiece(trace, DOWNLOAD, 2, 0, [1]);
    }
    assert ReadFully(trace, DOWNLOAD, pieces, [1], 2, 3);
    assert NonEmptyAt(trace, DOWNLOAD, 0);
  }

  lemma TruncatedIsSafe(k: nat)
    requires k < 7
    ensures MomentSafe(TRUNCATED.trace[k], [9], Some([1]), true)
  {
  }

  /** Without an expected hash a download truncated between its check and its copy is installed as it is
      then, and everything a run guarantees holds: the half of the download counts as the update. */
  lemma TruncatedDownloadIsInstalled(digest: Bytes -> string)
    ensures HelperRun(TRUNCATED, digest) && TRUNCATED.outcome == Ok && TRUNCATED.expected == None
    ensures TRUNCATED.start.files[DOWNLOAD] == [1, 2, 3] && Durable(TRUNCATED.end, Current, [1])
  {
    TruncatedIsReceived();
    forall k | 0 <= k < |TRUNCATED.trace| ensures MomentSafe(TRUNCATED.trace[k], [9], Some([1]), true) {
      TruncatedIsSafe(k);
    }
  }

  /** An interrupted swap of an older helper, where only the backup is left, never loses the image: at every
      moment it is installed or still in the backup, unless the update itself is installed. */
  lemma MissingImageIsRecoverable(run: Run, k: nat, image: Bytes, digest: Bytes -> string)
    requires HelperRun(run, digest) && k < |run.trace|
    requires Current !in run.start.files && Durable(run.start, Backup, image)
    ensures var d := run.trace[k].disk;
            || Durable(d, Current, image)
            || (Current !in d.files && Durable(d, Backup, image))
            || (Current in d.files && Installs(run, d.files[Current], digest)
                && (run.trace[k].confirmed || Durable(d, Backup, image)))
    ensures run.outcome.Err? && run.outcome.error != RollbackFailed ==> Shows(run.end, image)
  {
    assert MomentSafe(run.trace[k], image, run.update, false);
  }
}

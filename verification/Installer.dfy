/** The update helper's file replacement, step by step. Every copied chunk, sync, rename and removal is
    one step; each may fail, the helper may be cut after any of them, and between any two of them other
    programs may change the download. */
module Installer {
  import opened Model

  type Bytes = seq<bv8>

  /** `Other` is any path other programs may write to, such as the download. */
  datatype Path = Current | Backup | Temporary(serial: nat) | Other(name: string)

  predicate Shared(p: Path) { p.Other? }

  /** The file the helper is reading: the path under which it was opened, and what it holds now, whatever
      has become of that path. */
  datatype Handle = Closed | Reading(source: Path, content: Bytes)

  /** A file in `unsynced` may come back from a crash with any content. */
  datatype Disk = Disk(files: map<Path, Bytes>, unsynced: set<Path>, handle: Handle)

  /** What an observer sees after one step, and whether the launch of the new image was confirmed. */
  datatype Moment = Moment(disk: Disk, confirmed: bool)

  datatype HelperError =
    | CurrentMissing
    | ReplacementMissing
    | ReplacementEmpty
    | WaitTimeout
    | BackupFailed
    | ReplaceFailed
    | RelaunchFailed
    | RollbackFailed
    | ReplacementHashMismatch

  datatype Outcome = Ok | Err(error: HelperError)

  function AsciiLower(c: char): char { if 'A' <= c <= 'Z' then (c as int + 32) as char else c }

  predicate EqIgnoreAsciiCase(a: string, b: string) {
    |a| == |b| && forall i | 0 <= i < |a| :: AsciiLower(a[i]) == AsciiLower(b[i])
  }

  // ---------------------------------------------------------------- what must hold at every step

  /** The file is there, complete, and a crash cannot change it. */
  predicate Durable(d: Disk, p: Path, content: Bytes) {
    p in d.files && p !in d.unsynced && d.files[p] == content
  }

  /** The image to come back to: the installed file or, after an interrupted swap of an older helper,
      the backup. */
  function Image(d: Disk): (r: Option<Bytes>)
    ensures r.Some? ==> Shows(d, r.value)
  {
    if Current in d.files then if Current !in d.unsynced then Some(d.files[Current]) else None
    else if Backup in d.files && Backup !in d.unsynced then Some(d.files[Backup]) else None
  }

  predicate Shows(d: Disk, image: Bytes) {
    if Current in d.files then Durable(d, Current, image) else Durable(d, Backup, image)
  }

  /** Installed is the old image, or the new one with the old one kept aside until the new one runs. */
  predicate MomentSafe(m: Moment, image: Bytes, update: Option<Bytes>, present: bool) {
    && (present ==> Current in m.disk.files)
    && (|| Shows(m.disk, image)
        || (update.Some? && Durable(m.disk, Current, update.value) && (m.confirmed || Durable(m.disk, Backup, image))))
  }

  predicate AllSafe(trace: seq<Moment>, image: Bytes, update: Option<Bytes>, present: bool) {
    forall i | 0 <= i < |trace| :: MomentSafe(trace[i], image, update, present)
  }

  lemma SafeForAnyUpdate(trace: seq<Moment>, image: Bytes, update: Option<Bytes>, present: bool)
    requires AllSafe(trace, image, None, present)
    ensures AllSafe(trace, image, update, present)
  {
    assert forall i | 0 <= i < |trace| :: MomentSafe(trace[i], image, None, present);
  }

  predicate SamePath(d: Disk, e: Disk, p: Path) {
    && (p in d.files <==> p in e.files)
    && (p in d.files ==> d.files[p] == e.files[p])
    && (p in d.unsynced <==> p in e.unsynced)
  }

  /** The installed file and its backup are as they were. */
  predicate SameInstalled(d: Disk, e: Disk) { SamePath(d, e, Current) && SamePath(d, e, Backup) }

  /** Nothing private changed but `except`. */
  ghost predicate Kept(d: Disk, e: Disk, except: set<Path>) {
    forall p {:trigger p in e.files} {:trigger p in e.unsynced} {:trigger SamePath(d, e, p)}
      | !Shared(p) && p !in except :: SamePath(d, e, p)
  }

  /** `after` continues `before` by moments that leave the installed files as in `d`. */
  ghost predicate Quiet(before: seq<Moment>, after: seq<Moment>, d: Disk, confirmed: bool) {
    && |before| <= |after|
    && after[..|before|] == before
    && forall i | |before| <= i < |after| :: SameInstalled(d, after[i].disk) && after[i].confirmed == confirmed
  }

  /** `after` continues `before`, and its last moment shows the installed files as in `e`. */
  ghost predicate Follows(before: seq<Moment>, after: seq<Moment>, d: Disk, e: Disk) {
    && |before| <= |after|
    && after[..|before|] == before
    && SameInstalled(if |after| > |before| then after[|after| - 1].disk else d, e)
  }

  lemma KeptMore(d: Disk, e: Disk, except: set<Path>, more: set<Path>)
    requires Kept(d, e, except) && except <= more
    ensures Kept(d, e, more)
  {
    forall p | !Shared(p) && p !in more ensures SamePath(d, e, p) {
      assert p !in except;
    }
  }

  /** Every temporary file there is now was there before and was not to be removed, or its removal failed. */
  ghost predicate Tidy(before: map<Path, Bytes>, after: map<Path, Bytes>, removed: set<Path>, stuck: set<Path>) {
    forall p: Path | p.Temporary? && p in after :: (p in before && p !in removed) || p in stuck
  }

  lemma TidyChains(a: map<Path, Bytes>, b: map<Path, Bytes>, c: map<Path, Bytes>, before: set<Path>, after: set<Path>)
    requires Tidy(a, b, {}, before) && Tidy(b, c, {}, after) && before <= after
    ensures Tidy(a, c, {}, after)
  {
  }

  lemma TidyThenRemoved(a: map<Path, Bytes>, b: map<Path, Bytes>, c: map<Path, Bytes>, some: set<Path>, before: set<Path>, after: set<Path>)
    requires Tidy(a, b - some, {}, before) && Tidy(b, c, some, after) && before <= after
    ensures Tidy(a, c, {}, after)
  {
    forall p: Path | p.Temporary? && p in c ensures p in a || p in after {
      if p !in after {
        assert p in b - some;
      }
    }
  }

  /** A step that changed `some` at most is tidy if it left those tidy. */
  lemma KeptIsTidy(d: Disk, e: Disk, some: set<Path>, removed: set<Path>, stuck: set<Path>)
    requires Kept(d, e, some) && removed <= some
    requires forall p: Path | p in some && p.Temporary? && p in e.files :: (p in d.files && p !in removed) || p in stuck
    ensures Tidy(d.files, e.files, removed, stuck)
  {
    forall p: Path | p.Temporary? && p in e.files ensures (p in d.files && p !in removed) || p in stuck {
      if p !in some {
        assert SamePath(d, e, p);
      }
    }
  }

  lemma SameBoth(d: Disk, e: Disk)
    requires Kept(d, e, {})
    ensures SameInstalled(d, e) && Image(d) == Image(e)
  {
    assert SamePath(d, e, Current) && SamePath(d, e, Backup);
  }

  lemma FollowsChains(a: seq<Moment>, b: seq<Moment>, c: seq<Moment>, d: Disk, e: Disk, f: Disk)
    requires Follows(a, b, d, e) && Follows(b, c, e, f)
    ensures Follows(a, c, d, f)
  {
    assert c[..|a|] == c[..|b|][..|a|];
    if |c| == |b| {
      assert c == b;
    }
  }

  /** Every moment added shows the installed files as in `d` or as in `e`, nothing in between. */
  ghost predicate Between(before: seq<Moment>, after: seq<Moment>, d: Disk, e: Disk, confirmed: bool) {
    && Follows(before, after, d, e)
    && forall i | |before| <= i < |after| ::
         (SameInstalled(d, after[i].disk) || SameInstalled(e, after[i].disk)) && after[i].confirmed == confirmed
  }

  lemma BetweenIsSafe(before: seq<Moment>, after: seq<Moment>, d: Disk, e: Disk, confirmed: bool, image: Bytes, update: Option<Bytes>, present: bool)
    requires Between(before, after, d, e, confirmed) && AllSafe(before, image, update, present)
    requires MomentSafe(Moment(d, confirmed), image, update, present) && MomentSafe(Moment(e, confirmed), image, update, present)
    ensures AllSafe(after, image, update, present)
  {
    forall i | 0 <= i < |after| ensures MomentSafe(after[i], image, update, present) {
      if i < |before| {
        assert after[i] == after[..|before|][i];
      }
    }
  }

  lemma QuietThenBetween(a: seq<Moment>, b: seq<Moment>, c: seq<Moment>, d: Disk, e: Disk, f: Disk, confirmed: bool)
    requires Quiet(a, b, d, confirmed) && SameInstalled(d, e) && Between(b, c, e, f, confirmed)
    ensures Between(a, c, d, f, confirmed)
  {
    FollowsChains(a, b, c, d, e, f);
    forall i | |a| <= i < |c|
      ensures (SameInstalled(d, c[i].disk) || SameInstalled(f, c[i].disk)) && c[i].confirmed == confirmed
    {
      if i < |b| {
        assert c[i] == c[..|b|][i];
      }
    }
  }

  lemma BetweenThenQuiet(a: seq<Moment>, b: seq<Moment>, c: seq<Moment>, d: Disk, e: Disk, f: Disk, confirmed: bool)
    requires Between(a, b, d, e, confirmed) && Quiet(b, c, e, confirmed) && SameInstalled(e, f)
    ensures Between(a, c, d, f, confirmed)
  {
    FollowsChains(a, b, c, d, e, f);
    forall i | |a| <= i < |c|
      ensures (SameInstalled(d, c[i].disk) || SameInstalled(f, c[i].disk)) && c[i].confirmed == confirmed
    {
      if i < |b| {
        assert c[i] == c[..|b|][i];
      }
    }
  }

  lemma KeptChains(d: Disk, e: Disk, f: Disk, except: set<Path>)
    requires Kept(d, e, except) && Kept(e, f, except)
    ensures Kept(d, f, except)
  {
    forall p | !Shared(p) && p !in except ensures SamePath(d, f, p) {
      assert SamePath(d, e, p) && SamePath(e, f, p);
    }
  }

  /** Two quiet stretches make one. */
  lemma Chain(a: seq<Moment>, b: seq<Moment>, c: seq<Moment>, d: Disk, e: Disk, f: Disk, confirmed: bool, except: set<Path>)
    requires Quiet(a, b, d, confirmed) && Quiet(b, c, e, confirmed)
    requires Kept(d, e, except) && Kept(e, f, except) && Current !in except && Backup !in except
    ensures Quiet(a, c, d, confirmed) && Kept(d, f, except)
  {
    assert SamePath(d, e, Current) && SamePath(d, e, Backup);
    QuietChains(a, b, c, d, e, confirmed);
    KeptChains(d, e, f, except);
  }

  lemma QuietIsSafe(before: seq<Moment>, after: seq<Moment>, d: Disk, confirmed: bool, image: Bytes, update: Option<Bytes>, present: bool)
    requires Quiet(before, after, d, confirmed) && AllSafe(before, image, update, present)
    requires MomentSafe(Moment(d, confirmed), image, update, present)
    ensures AllSafe(after, image, update, present)
  {
    forall i | 0 <= i < |after| ensures MomentSafe(after[i], image, update, present) {
      if i < |before| {
        assert after[i] == after[..|before|][i];
      }
    }
  }

  lemma QuietChains(a: seq<Moment>, b: seq<Moment>, c: seq<Moment>, d: Disk, e: Disk, confirmed: bool)
    requires Quiet(a, b, d, confirmed) && Quiet(b, c, e, confirmed) && SameInstalled(d, e)
    ensures Quiet(a, c, d, confirmed)
  {
    assert c[..|a|] == c[..|b|][..|a|];
    forall i | |a| <= i < |c| ensures SameInstalled(d, c[i].disk) && c[i].confirmed == confirmed {
      if i < |b| {
        assert c[i] == c[..|b|][i];
      }
    }
  }

  ghost predicate SharedKept(before: map<Path, Bytes>, after: map<Path, Bytes>) {
    forall p {:trigger p in after} | Shared(p) :: (p in before <==> p in after) && (p in before ==> before[p] == after[p])
  }

  lemma SharedChains(a: map<Path, Bytes>, b: map<Path, Bytes>, c: map<Path, Bytes>)
    requires SharedKept(a, b) && SharedKept(b, c)
    ensures SharedKept(a, c)
  {
  }

  /** Some name for a temporary file is not in use. */
  lemma UnusedName(paths: set<Path>, n: nat)
    ensures exists m: nat :: m >= n && Temporary(m) !in paths
  {
    if Temporary(n) in paths {
      UnusedName(paths - {Temporary(n)}, n + 1);
      var m: nat :| m >= n + 1 && Temporary(m) !in paths - {Temporary(n)};
      assert Temporary(m) !in paths;
    }
  }

  /** The installed file where an interrupted swap left it. */
  function Recovered(files: map<Path, Bytes>): map<Path, Bytes> {
    if Current in files || Backup !in files then files else (files - {Backup})[Current := files[Backup]]
  }

  /** What the helper makes of its inputs when nothing goes wrong. */
  function Verdict(files: map<Path, Bytes>, replacement: Path, expected: Option<string>, digest: Bytes -> string): Outcome {
    if Current !in files then Err(CurrentMissing)
    else if replacement !in files then Err(ReplacementMissing)
    else if replacement == Current || replacement == Backup then Err(ReplaceFailed)
    else if files[replacement] == [] then Err(ReplacementEmpty)
    else if expected.Some? && !EqIgnoreAsciiCase(digest(files[replacement]), expected.value) then Err(ReplacementHashMismatch)
    else Ok
  }

  /** The files after a run in which nothing goes wrong: the update in place of the installed file and neither
      backup, download nor any temporary file left; or else what was found, without a download of the wrong hash. */
  function Updated(files: map<Path, Bytes>, replacement: Path, r: Outcome): map<Path, Bytes> {
    var found := Recovered(files);
    match r
    case Ok => if replacement in found then (found - {replacement, Backup})[Current := found[replacement]] else found
    case Err(e) => if e == ReplacementHashMismatch then found - {replacement} else found
  }

  lemma PublishedFiles(files: map<Path, Bytes>, local: Path, backup: Path, image: Bytes, content: Bytes)
    requires local.Temporary? && backup.Temporary? && local != backup && local !in files && backup !in files
    ensures (files[local := content][backup := image] - {local, backup})[Backup := image][Current := content] == files[Backup := image][Current := content]
  {
    assert files[local := content][backup := image] - {local, backup} == files;
  }

  lemma InstalledThenCleared(files: map<Path, Bytes>, replacement: Path, old_image: Bytes, content: Bytes)
    requires replacement != Current && replacement != Backup
    ensures files[Backup := old_image][Current := content] - {replacement} - {Backup} == (files - {replacement, Backup})[Current := content]
  {
  }

  lemma Traced(before: seq<Moment>, after: seq<Moment>, d: Disk, e: Disk)
    requires before == [Moment(d, false)] && Follows(before, after, d, e)
    ensures after != [] && after[0] == before[0] && SameInstalled(after[|after| - 1].disk, e)
  {
    assert after[0] == after[..1][0];
  }

  // ---------------------------------------------------------------- what a copy is made of

  /** One read of the copy loop: at which moment, and from which position on. */
  datatype Piece = Piece(at: nat, from: nat)

  predicate OpenFor(d: Disk, source: Path) { d.handle.Reading? && d.handle.source == source }

  predicate HasPiece(trace: seq<Moment>, source: Path, at: nat, from: nat, piece: Bytes) {
    && at < |trace| && OpenFor(trace[at].disk, source)
    && from + |piece| <= |trace[at].disk.handle.content|
    && trace[at].disk.handle.content[from..from + |piece|] == piece
  }

  /** The copy consists of pieces the open file had, each at its place, at moments in order. */
  predicate ReadInOrder(trace: seq<Moment>, source: Path, pieces: seq<Piece>, copy: Bytes)
    decreases pieces
  {
    if pieces == [] then copy == []
    else
      var last, rest := pieces[|pieces| - 1], pieces[..|pieces| - 1];
      && last.from < |copy| && HasPiece(trace, source, last.at, last.from, copy[last.from..])
      && (rest != [] ==> rest[|rest| - 1].at <= last.at)
      && ReadInOrder(trace, source, rest, copy[..last.from])
  }

  predicate EndsAt(trace: seq<Moment>, source: Path, copy: Bytes, at: nat) {
    at < |trace| && OpenFor(trace[at].disk, source) && |trace[at].disk.handle.content| <= |copy|
  }

  /** The moment at which the file is opened: it is the one under the path. */
  predicate OpenedAt(trace: seq<Moment>, source: Path, at: nat) {
    at < |trace| && source in trace[at].disk.files && trace[at].disk.handle == Reading(source, trace[at].disk.files[source])
  }

  predicate Since(begin: nat, pieces: seq<Piece>) { pieces != [] ==> begin <= pieces[0].at }

  predicate ReadFully(trace: seq<Moment>, source: Path, pieces: seq<Piece>, copy: Bytes, begin: nat, end: nat) {
    && OpenedAt(trace, source, begin) && begin <= end
    && ReadInOrder(trace, source, pieces, copy) && Since(begin, pieces)
    && EndsAt(trace, source, copy, end) && (pieces != [] ==> pieces[|pieces| - 1].at <= end)
  }

  /** Opened once and read piece by piece until, not before the last piece, the file had nothing more to give. */
  ghost predicate CopiedFrom(trace: seq<Moment>, source: Path, copy: Bytes) {
    exists pieces, begin, end :: ReadFully(trace, source, pieces, copy, begin, end)
  }

  predicate NonEmptyAt(trace: seq<Moment>, source: Path, at: nat) {
    at < |trace| && source in trace[at].disk.files && trace[at].disk.files[source] != []
  }

  predicate SeenNonEmpty(trace: seq<Moment>, source: Path) {
    exists at: nat | at < |trace| :: NonEmptyAt(trace, source, at)
  }

  /** The content is a copy of a file that was not empty when it was checked. */
  ghost predicate Received(trace: seq<Moment>, source: Path, content: Bytes) {
    CopiedFrom(trace, source, content) && SeenNonEmpty(trace, source)
  }

  predicate Extends(before: seq<Moment>, after: seq<Moment>) { |before| <= |after| && after[..|before|] == before }

  lemma SameMoment(before: seq<Moment>, after: seq<Moment>, at: nat)
    requires Extends(before, after) && at < |before|
    ensures after[at] == before[at]
  {
    assert after[at] == after[..|before|][at];
  }

  lemma {:induction false} ReadsStay(before: seq<Moment>, after: seq<Moment>, source: Path, pieces: seq<Piece>, copy: Bytes)
    requires Extends(before, after) && ReadInOrder(before, source, pieces, copy)
    ensures ReadInOrder(after, source, pieces, copy)
    decreases pieces
  {
    if pieces != [] {
      var last := pieces[|pieces| - 1];
      SameMoment(before, after, last.at);
      ReadsStay(before, after, source, pieces[..|pieces| - 1], copy[..last.from]);
    }
  }

  lemma ReadOneMore(before: seq<Moment>, after: seq<Moment>, source: Path, pieces: seq<Piece>, copy: Bytes, piece: Bytes, at: nat)
    requires Extends(before, after) && ReadInOrder(before, source, pieces, copy)
    requires piece != [] && HasPiece(after, source, at, |copy|, piece) && |before| - 1 <= at
    ensures ReadInOrder(after, source, pieces + [Piece(at, |copy|)], copy + piece)
  {
    ReadsStay(before, after, source, pieces, copy);
    var all := pieces + [Piece(at, |copy|)];
    assert all[..|all| - 1] == pieces;
    assert (copy + piece)[..|copy|] == copy && (copy + piece)[|copy|..] == piece;
  }

  lemma CopyEnds(trace: seq<Moment>, source: Path, pieces: seq<Piece>, copy: Bytes, begin: nat)
    requires OpenedAt(trace, source, begin) && ReadInOrder(trace, source, pieces, copy) && Since(begin, pieces)
    requires EndsAt(trace, source, copy, |trace| - 1)
    ensures CopiedFrom(trace, source, copy)
  {
    assert ReadFully(trace, source, pieces, copy, begin, |trace| - 1);
  }

  lemma OpenedStays(before: seq<Moment>, after: seq<Moment>, source: Path, at: nat)
    requires Extends(before, after) && OpenedAt(before, source, at)
    ensures OpenedAt(after, source, at)
  {
    SameMoment(before, after, at);
  }

  lemma CopyStays(before: seq<Moment>, after: seq<Moment>, source: Path, copy: Bytes)
    requires Extends(before, after) && CopiedFrom(before, source, copy)
    ensures CopiedFrom(after, source, copy)
  {
    var pieces, begin, end :| ReadFully(before, source, pieces, copy, begin, end);
    ReadsStay(before, after, source, pieces, copy);
    OpenedStays(before, after, source, begin);
    SameMoment(before, after, end);
    assert ReadFully(after, source, pieces, copy, begin, end);
  }

  lemma SeenStays(before: seq<Moment>, after: seq<Moment>, source: Path)
    requires Extends(before, after) && SeenNonEmpty(before, source)
    ensures SeenNonEmpty(after, source)
  {
    var at: nat :| at < |before| && NonEmptyAt(before, source, at);
    SameMoment(before, after, at);
    assert NonEmptyAt(after, source, at);
  }

  lemma ReceivedStays(before: seq<Moment>, after: seq<Moment>, source: Path, copy: Bytes)
    requires Extends(before, after) && Received(before, source, copy)
    ensures Received(after, source, copy)
  {
    CopyStays(before, after, source, copy);
    SeenStays(before, after, source);
  }

  /** The source holds this whenever it is there, and so does the file opened under its path. */
  predicate Always(trace: seq<Moment>, source: Path, content: Bytes) {
    forall i | 0 <= i < |trace| :: HoldsOnly(trace[i].disk, source, content)
  }

  predicate HoldsOnly(d: Disk, source: Path, content: Bytes) {
    (source in d.files ==> d.files[source] == content) && (OpenFor(d, source) ==> d.handle.content == content)
  }

  lemma CopyIsWhole(trace: seq<Moment>, source: Path, content: Bytes, copy: Bytes)
    requires CopiedFrom(trace, source, copy) && Always(trace, source, content)
    ensures copy == content
  {
    var pieces, begin: nat, end: nat :| ReadFully(trace, source, pieces, copy, begin, end);
    PrefixRead(trace, source, content, copy, pieces);
    assert HoldsOnly(trace[end].disk, source, content);
  }

  /** An undisturbed copy is the whole file, and it is not empty. */
  lemma UndisturbedIsWhole(trace: seq<Moment>, source: Path, content: Bytes, copy: Bytes)
    requires Received(trace, source, copy) && Always(trace, source, content)
    ensures copy == content && content != []
  {
    CopyIsWhole(trace, source, content, copy);
    var seen: nat :| seen < |trace| && NonEmptyAt(trace, source, seen);
    assert HoldsOnly(trace[seen].disk, source, content);
  }

  lemma {:induction false} PrefixRead(trace: seq<Moment>, source: Path, content: Bytes, copy: Bytes, pieces: seq<Piece>)
    requires ReadInOrder(trace, source, pieces, copy) && Always(trace, source, content)
    ensures copy <= content
    decreases pieces
  {
    if pieces != [] {
      var last := pieces[|pieces| - 1];
      PrefixRead(trace, source, content, copy[..last.from], pieces[..|pieces| - 1]);
      assert HoldsOnly(trace[last.at].disk, source, content);
      assert copy == copy[..last.from] + copy[last.from..];
      assert content[..|copy|] == content[..last.from] + content[last.from..|copy|];
    }
  }

  predicate ByteAt(trace: seq<Moment>, source: Path, at: nat, i: nat, byte: bv8) {
    && at < |trace| && OpenFor(trace[at].disk, source)
    && i < |trace[at].disk.handle.content| && trace[at].disk.handle.content[i] == byte
  }

  predicate Stood(trace: seq<Moment>, source: Path, end: nat, i: nat, byte: bv8) {
    exists at | 0 <= at <= end :: ByteAt(trace, source, at, i, byte)
  }

  /** However the source is disturbed, moved away or replaced: it is the file found under the path when it
      was opened, every byte of the copy stood at its place in that file at some moment, and at some later
      one the file was no longer than the copy. */
  lemma CopyMeans(trace: seq<Moment>, source: Path, copy: Bytes) returns (begin: nat, end: nat)
    requires CopiedFrom(trace, source, copy)
    ensures OpenedAt(trace, source, begin) && begin <= end && EndsAt(trace, source, copy, end)
    ensures forall i: nat | i < |copy| :: Stood(trace, source, end, i, copy[i])
  {
    var pieces, first, last :| ReadFully(trace, source, pieces, copy, first, last);
    begin, end := first, last;
    forall i: nat | i < |copy| ensures Stood(trace, source, end, i, copy[i]) {
      var at := ByteRead(trace, source, copy, pieces, i);
    }
  }

  lemma {:induction false} ByteRead(trace: seq<Moment>, source: Path, copy: Bytes, pieces: seq<Piece>, i: nat) returns (at: nat)
    requires ReadInOrder(trace, source, pieces, copy) && i < |copy|
    ensures ByteAt(trace, source, at, i, copy[i])
    ensures pieces != [] && at <= pieces[|pieces| - 1].at
    decreases pieces
  {
    var last := pieces[|pieces| - 1];
    if last.from <= i {
      at := last.at;
      assert copy[last.from..][i - last.from] == trace[at].disk.handle.content[last.from..|copy|][i - last.from];
    } else {
      at := ByteRead(trace, source, copy[..last.from], pieces[..|pieces| - 1], i);
    }
  }

  // ---------------------------------------------------------------- the helper process

  class Helper {
    var files: map<Path, Bytes>
    var unsynced: set<Path>
    var handle: Handle
    /** How many more times other programs will interfere: finitely often, but any number. */
    var interventions: nat
    /** How many more steps will fail: finitely many, but any number. */
    var faults: nat
    const digest: Bytes -> string
    ghost var trace: seq<Moment>
    ghost var confirmed: bool
    /** The files whose removal failed, and how the launches of the new image went. */
    ghost var stuck: set<Path>
    ghost var launches: seq<bool>

    constructor (disk: Disk, interventions: nat, faults: nat, digest: Bytes -> string)
      ensures Now() == disk && this.interventions == interventions && this.faults == faults && this.digest == digest
      ensures trace == [Moment(disk, false)] && !confirmed && stuck == {} && launches == []
    {
      files, unsynced, handle, this.digest := disk.files, disk.unsynced, disk.handle, digest;
      this.interventions, this.faults := interventions, faults;
      trace, confirmed, stuck, launches := [Moment(disk, false)], false, {}, [];
    }

    function Now(): Disk
      reads this
    {
      Disk(files, unsynced, handle)
    }

    /** The trace is up to date: its last moment is now. */
    ghost predicate Recorded()
      reads this
    {
      trace != [] && trace[|trace| - 1] == Moment(Now(), confirmed)
    }

    ghost method Record()
      modifies this`trace
      ensures trace == old(trace) + [Moment(Now(), confirmed)]
    {
      trace := trace + [Moment(Now(), confirmed)];
    }

    /** Other programs run. */
    method Others()
      requires Recorded()
      modifies this`files, this`handle, this`interventions, this`trace
      ensures Recorded()
      ensures interventions <= old(interventions)
      ensures interventions == old(interventions) ==> files == old(files)
      ensures StillOpen(old(interventions), old(handle))
      ensures Kept(old(Now()), Now(), {}) && Quiet(old(trace), trace, old(Now()), confirmed)
    {
      if interventions > 0 {
        var act: bool := *;
        if act {
          var changed: map<Path, Bytes> := *;
          files := (map p | p in changed && Shared(p) :: changed[p]) + (map p | p in files && !Shared(p) :: files[p]);
          if handle.Reading? && Shared(handle.source) {
            var content: Bytes := *;
            handle := Reading(handle.source, content);
          }
          interventions := interventions - 1;
          Record();
        }
      }
    }

    /** The open file is the same, and only others can have changed a shared one. */
    ghost predicate StillOpen(interventionsBefore: nat, before: Handle)
      reads this
    {
      && (interventions == interventionsBefore ==> handle == before)
      && (before.Reading? ==> handle.Reading? && handle.source == before.source && (!Shared(before.source) ==> handle == before))
    }

    /** Nothing failed and nobody interfered since there were so many faults and interventions left. */
    ghost predicate Smooth(interventionsBefore: nat, faultsBefore: nat)
      reads this
    {
      interventions == interventionsBefore && faults == faultsBefore
    }

    /** Each removal that failed was one of the faults since then. */
    ghost predicate Spent(stuckBefore: set<Path>, faultsBefore: nat)
      reads this
    {
      stuckBefore <= stuck && |stuck| - |stuckBefore| <= faultsBefore - faults
    }

    /** The new image was launched exactly if that was asked for and it was put in place, and at most once. */
    ghost predicate LaunchesFit(before: seq<bool>, r: Outcome, relaunch: bool)
      reads this
    {
      match r
      case Ok => launches == before + if relaunch then [true] else []
      case Err(RelaunchFailed) => relaunch && launches == before + [false]
      case Err(RollbackFailed) => launches == before || (relaunch && launches == before + [false])
      case Err(_) => launches == before
    }

    /** A step that only reads: it may fail. */
    method Probe() returns (ok: bool)
      requires Recorded()
      modifies this`files, this`handle, this`interventions, this`faults, this`trace
      ensures Recorded()
      ensures Undisturbed(old(interventions), old(files)) && StillOpen(old(interventions), old(handle))
      ensures Kept(old(Now()), Now(), {}) && Quiet(old(trace), trace, old(Now()), confirmed)
      ensures faults <= old(faults) && (!ok ==> faults < old(faults))
      ensures Smooth(old(interventions), old(faults)) ==> ok && files == old(files)
    {
      Others();
      var fails: bool := *;
      ok := faults == 0 || !fails;
      if !ok {
        faults := faults - 1;
      }
    }

    ghost predicate Undisturbed(interventionsBefore: nat, filesBefore: map<Path, Bytes>)
      reads this
    {
      interventions <= interventionsBefore && (interventions == interventionsBefore ==> SharedKept(filesBefore, files))
    }

    /** Create a new file, under a name nobody uses or not at all. */
    method CreateTemporary() returns (ok: bool, temp: Path)
      requires Recorded()
      modifies this`files, this`unsynced, this`handle, this`interventions, this`faults, this`trace
      ensures Recorded()
      ensures temp.Temporary? && Undisturbed(old(interventions), old(files)) && StillOpen(old(interventions), old(handle))
      ensures Quiet(old(trace), trace, old(Now()), confirmed)
      ensures if ok then temp !in old(files) && temp in files && files[temp] == [] && Kept(old(Now()), Now(), {temp})
              else Kept(old(Now()), Now(), {})
      ensures faults <= old(faults) && (Smooth(old(interventions), old(faults)) ==> ok && files == old(files)[temp := []])
    {
      ok := Probe();
      UnusedName(files.Keys, 0);
      var serial: nat :| Temporary(serial) !in files;
      temp := Temporary(serial);
      if ok {
        files, unsynced := files[temp := []], unsynced + {temp};
        Record();
      }
    }

    /** Open a file for reading. */
    method OpenSource(source: Path) returns (ok: bool)
      requires Recorded()
      modifies this`files, this`handle, this`interventions, this`faults, this`trace
      ensures Recorded() && Undisturbed(old(interventions), old(files))
      ensures Kept(old(Now()), Now(), {}) && Quiet(old(trace), trace, old(Now()), confirmed)
      ensures ok ==> source in files && handle == Reading(source, files[source])
      ensures faults <= old(faults) && (Smooth(old(interventions), old(faults)) ==> ok == (source in old(files)) && files == old(files))
    {
      ok := Probe();
      ok := ok && source in files;
      if ok {
        handle := Reading(source, files[source]);
        Record();
      }
    }

    method CloseSource()
      requires Recorded()
      modifies this`handle, this`trace
      ensures Recorded() && Kept(old(Now()), Now(), {}) && Quiet(old(trace), trace, old(Now()), confirmed)
      ensures files == old(files) && handle.Closed?
    {
      handle := Closed;
      Record();
    }

    method Append(temp: Path, chunk: Bytes)
      requires temp.Temporary? && temp in files
      requires Recorded()
      modifies this`files, this`unsynced, this`trace
      ensures Recorded()
      ensures files == old(files)[temp := old(files)[temp] + chunk] && unsynced == old(unsynced) + {temp}
      ensures Quiet(old(trace), trace, old(Now()), confirmed)
    {
      files, unsynced := files[temp := files[temp] + chunk], unsynced + {temp};
      Record();
    }

    method Sync(temp: Path) returns (ok: bool)
      requires temp.Temporary? && temp in files
      requires Recorded()
      modifies this`files, this`unsynced, this`handle, this`interventions, this`faults, this`trace
      ensures Recorded()
      ensures Undisturbed(old(interventions), old(files)) && Kept(old(Now()), Now(), {temp})
      ensures temp in files && files[temp] == old(files)[temp] && (ok ==> temp !in unsynced)
      ensures Quiet(old(trace), trace, old(Now()), confirmed)
      ensures faults <= old(faults) && (Smooth(old(interventions), old(faults)) ==> ok && files == old(files))
    {
      ok := Probe();
      if ok {
        ghost var d := Now();
        unsynced := unsynced - {temp};
        Record();
        assert Kept(d, Now(), {temp});
        KeptChains(old(Now()), d, Now(), {temp});
      }
    }

    /** Remove a file, if that succeeds. */
    method Remove(p: Path)
      requires p != Current && p != Backup
      requires Recorded()
      modifies this`files, this`unsynced, this`handle, this`interventions, this`faults, this`trace, this`stuck
      ensures Recorded()
      ensures interventions <= old(interventions) && Kept(old(Now()), Now(), {p})
      ensures Quiet(old(trace), trace, old(Now()), confirmed)
      ensures faults <= old(faults) && (Smooth(old(interventions), old(faults)) ==> files == old(files) - {p})
      ensures Spent(old(stuck), old(faults)) && (p in files ==> p in stuck)
    {
      var ok := Probe();
      KeptMore(old(Now()), Now(), {}, {p});
      if ok {
        ghost var t, d := trace, Now();
        Unlink(p);
        Chain(old(trace), t, trace, old(Now()), d, Now(), confirmed, {p});
      } else {
        stuck := stuck + {p};
      }
    }

    method Unlink(p: Path)
      requires p != Current && p != Backup && Recorded()
      modifies this`files, this`unsynced, this`trace
      ensures Recorded() && files == old(files) - {p} && Kept(old(Now()), Now(), {p})
      ensures Quiet(old(trace), trace, old(Now()), confirmed)
    {
      if p in files {
        files, unsynced := files - {p}, unsynced - {p};
        Record();
      }
    }

    // -------------------------------------------------------------- transaction.rs

    /** Rename onto `destination`, retrying for a while. */
    method ReplaceFile(source: Path, destination: Path) returns (ok: bool)
      requires source.Temporary? && source in files && source !in unsynced && !Shared(destination) && source != destination
      requires Recorded()
      modifies this`files, this`unsynced, this`handle, this`interventions, this`faults, this`trace
      ensures Recorded()
      ensures interventions <= old(interventions)
      ensures Between(old(trace), trace, old(Now()), Now(), confirmed)
      ensures if ok then Durable(Now(), destination, old(files[source])) && Kept(old(Now()), Now(), {source, destination})
              else Kept(old(Now()), Now(), {})
      ensures faults <= old(faults)
      ensures Smooth(old(interventions), old(faults)) ==> ok && files == (old(files) - {source})[destination := old(files)[source]]
    {
      ok := Persist();
      if ok {
        ghost var t, d := trace, Now();
        Rename(source, destination);
        assert SamePath(old(Now()), d, source);
        KeptMore(old(Now()), d, {}, {source, destination});
        KeptChains(old(Now()), d, Now(), {source, destination});
        QuietThenBetween(old(trace), t, trace, old(Now()), d, Now(), confirmed);
      }
    }

    /** Try, and try again for a while. */
    method Persist() returns (ok: bool)
      requires Recorded()
      modifies this`files, this`handle, this`interventions, this`faults, this`trace
      ensures Recorded() && interventions <= old(interventions) && faults <= old(faults)
      ensures Kept(old(Now()), Now(), {}) && Quiet(old(trace), trace, old(Now()), confirmed)
      ensures Smooth(old(interventions), old(faults)) ==> ok && files == old(files)
    {
      var retries: nat := *;
      ok := Probe();
      while !ok && retries > 0
        invariant interventions <= old(interventions) && faults <= old(faults)
        invariant Smooth(old(interventions), old(faults)) ==> ok && files == old(files)
        invariant Recorded() && Kept(old(Now()), Now(), {}) && Quiet(old(trace), trace, old(Now()), confirmed)
      {
        ghost var t := trace;
        ghost var d := Now();
        ok := Probe();
        Chain(old(trace), t, trace, old(Now()), d, Now(), confirmed, {});
        retries := retries - 1;
      }
    }

    /** One rename: before it, and after it. */
    method Rename(source: Path, destination: Path)
      requires source.Temporary? && source in files && source !in unsynced && !Shared(destination) && source != destination && Recorded()
      modifies this`files, this`unsynced, this`trace
      ensures Recorded() && Between(old(trace), trace, old(Now()), Now(), confirmed)
      ensures Durable(Now(), destination, old(files[source])) && Kept(old(Now()), Now(), {source, destination})
      ensures files == (old(files) - {source})[destination := old(files)[source]]
    {
      ghost var t := trace;
      var content := files[source];
      files, unsynced := (files - {source})[destination := content], unsynced - {source, destination};
      Record();
      assert forall i | |t| <= i < |trace| :: trace[i] == Moment(Now(), confirmed);
    }

    /** Copy into a new sibling of the destination, chunk by chunk, and sync it. The source is opened once. */
    method SyncedCopy(source: Path) returns (ok: bool, temp: Path)
      requires Recorded()
      modifies this`files, this`unsynced, this`handle, this`interventions, this`faults, this`trace, this`stuck
      ensures Recorded()
      ensures temp.Temporary? && Quiet(old(trace), trace, old(Now()), confirmed)
      ensures interventions <= old(interventions)
      ensures Kept(old(Now()), Now(), {temp})
      ensures ok ==> temp !in old(files) && temp in files && temp !in unsynced
      ensures ok && (!Shared(source) || interventions == old(interventions)) ==>
                source in old(files) && files[temp] == old(files)[source]
      ensures ok ==> CopiedFrom(trace, source, files[temp])
      ensures faults <= old(faults)
      ensures Smooth(old(interventions), old(faults)) ==> ok == (source in old(files)) && files == if ok then old(files)[temp := old(files)[source]] else old(files)
      ensures Spent(old(stuck), old(faults))
      ensures !ok && temp in files ==> temp in old(files) || temp in stuck
      ensures ok ==> handle.Closed?
    {
      temp := Temporary(0);
      ok := OpenSource(source);
      if !ok {
        return;
      }
      ghost var t, d := trace, Now();
      assert SamePath(old(Now()), d, source) || Shared(source);
      ok, temp := CopyAndClose(source);
      Chain(old(trace), t, trace, old(Now()), d, Now(), confirmed, {temp});
      assert temp in old(files) ==> SamePath(old(Now()), d, temp);
    }

    method CopyAndClose(source: Path) returns (ok: bool, temp: Path)
      requires Recorded() && source in files && handle == Reading(source, files[source])
      modifies this`files, this`unsynced, this`handle, this`interventions, this`faults, this`trace, this`stuck
      ensures Recorded() && interventions <= old(interventions) && faults <= old(faults)
      ensures temp.Temporary? && Quiet(old(trace), trace, old(Now()), confirmed) && Kept(old(Now()), Now(), {temp})
      ensures ok ==> temp !in old(files) && temp in files && temp !in unsynced
      ensures ok && (!Shared(source) || interventions == old(interventions)) ==> files[temp] == old(files)[source]
      ensures ok ==> CopiedFrom(trace, source, files[temp])
      ensures Smooth(old(interventions), old(faults)) ==> ok && files == old(files)[temp := old(files)[source]]
      ensures Spent(old(stuck), old(faults))
      ensures !ok && temp in files ==> temp in old(files) || temp in stuck
      ensures handle.Closed?
    {
      ok, temp := CopyOpened(source);
      ghost var t, d := trace, Now();
      CloseSource();
      Chain(old(trace), t, trace, old(Now()), d, Now(), confirmed, {temp});
      assert SamePath(d, Now(), temp);
      if ok {
        CopyStays(t, trace, source, files[temp]);
      }
    }

    method CopyOpened(source: Path) returns (ok: bool, temp: Path)
      requires Recorded() && source in files && handle == Reading(source, files[source])
      modifies this`files, this`unsynced, this`handle, this`interventions, this`faults, this`trace, this`stuck
      ensures Recorded()
      ensures temp.Temporary? && Quiet(old(trace), trace, old(Now()), confirmed)
      ensures interventions <= old(interventions)
      ensures Kept(old(Now()), Now(), {temp})
      ensures ok ==> temp !in old(files) && temp in files && temp !in unsynced
      ensures ok && (!Shared(source) || interventions == old(interventions)) ==> files[temp] == old(files)[source]
      ensures ok ==> CopiedFrom(trace, source, files[temp])
      ensures faults <= old(faults) && (Smooth(old(interventions), old(faults)) ==> ok && files == old(files)[temp := old(files)[source]])
      ensures Spent(old(stuck), old(faults))
      ensures !ok && temp in files ==> temp in old(files) || temp in stuck
    {
      ghost var begin := |trace| - 1;
      ok, temp := CreateTemporary();
      if !ok {
        return;
      }
      ghost var t, d := trace, Now();
      OpenedStays(old(trace), t, source, begin);
      ok := CopyAndSync(source, temp, begin);
      Chain(old(trace), t, trace, old(Now()), d, Now(), confirmed, {temp});
      if !ok {
        t, d := trace, Now();
        Remove(temp);
        Chain(old(trace), t, trace, old(Now()), d, Now(), confirmed, {temp});
      }
    }

    method CopyAndSync(source: Path, temp: Path, ghost begin: nat) returns (ok: bool)
      requires temp.Temporary? && temp in files && files[temp] == [] && source != temp
      requires Recorded() && OpenFor(Now(), source) && OpenedAt(trace, source, begin)
      modifies this`files, this`unsynced, this`handle, this`interventions, this`faults, this`trace
      ensures Recorded()
      ensures interventions <= old(interventions)
      ensures Kept(old(Now()), Now(), {temp}) && Quiet(old(trace), trace, old(Now()), confirmed)
      ensures ok ==> temp in files && temp !in unsynced
      ensures ok && (!Shared(source) || interventions == old(interventions)) ==> files[temp] == old(handle).content
      ensures ok ==> CopiedFrom(trace, source, files[temp])
      ensures faults <= old(faults) && (Smooth(old(interventions), old(faults)) ==> ok && files == old(files)[temp := files[temp]])
    {
      ok := CopyChunks(source, temp, begin);
      if ok {
        ghost var t, d := trace, Now();
        ok := Sync(temp);
        Chain(old(trace), t, trace, old(Now()), d, Now(), confirmed, {temp});
        CopyStays(t, trace, source, files[temp]);
      }
    }

    /** The copy loop. What each read delivers is whatever the open file holds at that moment. */
    method CopyChunks(source: Path, temp: Path, ghost begin: nat) returns (ok: bool)
      requires temp.Temporary? && temp in files && files[temp] == [] && source != temp
      requires Recorded() && OpenFor(Now(), source) && OpenedAt(trace, source, begin)
      modifies this`files, this`unsynced, this`handle, this`interventions, this`faults, this`trace
      ensures Recorded()
      ensures interventions <= old(interventions)
      ensures Kept(old(Now()), Now(), {temp}) && Quiet(old(trace), trace, old(Now()), confirmed)
      ensures temp in files
      ensures ok && (!Shared(source) || interventions == old(interventions)) ==> files[temp] == old(handle).content
      ensures ok ==> CopiedFrom(trace, source, files[temp])
      ensures faults <= old(faults) && (Smooth(old(interventions), old(faults)) ==> ok && files == old(files)[temp := files[temp]])
    {
      var offset: nat := 0;
      ghost var pieces: seq<Piece> := [];
      var more := true;
      ok := true;
      while more
        invariant temp in files && offset == |files[temp]| && OpenFor(Now(), source) && (more ==> ok)
        invariant Recorded() && interventions <= old(interventions)
        invariant Kept(old(Now()), Now(), {temp}) && Quiet(old(trace), trace, old(Now()), confirmed)
        invariant ReadSince(source, temp, begin, pieces)
        invariant ok && !more ==> offset >= |handle.content|
        invariant faults <= old(faults) && (Smooth(old(interventions), old(faults)) ==> ok && files == old(files)[temp := files[temp]])
        invariant !Shared(source) || interventions == old(interventions) ==> handle == old(handle) && files[temp] <= handle.content
        decreases interventions, more, if offset < |handle.content| then |handle.content| - offset else 0
      {
        ok, more, offset, pieces := CopyStep(source, temp, offset, begin, pieces, old(trace), old(Now()), old(interventions), old(faults));
      }
      if ok {
        CopyEnds(trace, source, pieces, files[temp], begin);
      }
    }

    /** What has been copied so far was read since the file was opened. */
    ghost predicate ReadSince(source: Path, temp: Path, begin: nat, pieces: seq<Piece>)
      reads this
    {
      temp in files && OpenedAt(trace, source, begin) && ReadInOrder(trace, source, pieces, files[temp]) && Since(begin, pieces)
    }

    /** One round of the loop, seen from its start. */
    method CopyStep(source: Path, temp: Path, offset: nat, ghost begin: nat, ghost pieces: seq<Piece>,
                    ghost t0: seq<Moment>, ghost d0: Disk, ghost i0: nat, ghost f0: nat)
      returns (ok: bool, more: bool, offset': nat, ghost pieces': seq<Piece>)
      requires temp.Temporary? && temp in files && source != temp && OpenFor(Now(), source) && OpenFor(d0, source)
      requires Recorded() && offset == |files[temp]| && ReadSince(source, temp, begin, pieces)
      requires Kept(d0, Now(), {temp}) && Quiet(t0, trace, d0, confirmed) && interventions <= i0
      requires !Shared(source) || interventions == i0 ==> handle == d0.handle && files[temp] <= handle.content
      requires faults <= f0 && (Smooth(i0, f0) ==> files == d0.files[temp := files[temp]])
      modifies this`files, this`unsynced, this`handle, this`interventions, this`faults, this`trace
      ensures Recorded() && interventions <= old(interventions) && temp in files && OpenFor(Now(), source) && (more ==> ok)
      ensures Kept(d0, Now(), {temp}) && Quiet(t0, trace, d0, confirmed)
      ensures offset' == |files[temp]| && ReadSince(source, temp, begin, pieces')
      ensures ok && !more ==> offset' >= |handle.content|
      ensures !Shared(source) || interventions == i0 ==> handle == d0.handle && files[temp] <= handle.content
      ensures more && interventions == old(interventions) ==> handle == old(handle) && offset < offset' <= |handle.content|
      ensures faults <= f0 && (Smooth(i0, f0) ==> ok && files == d0.files[temp := files[temp]])
    {
      ghost var t, d := trace, Now();
      ok, more, offset', pieces' := CopyChunk(source, temp, offset, begin, pieces);
      Chain(t0, t, trace, d0, d, Now(), confirmed, {temp});
    }

    /** One read and the write of what it delivered. */
    method CopyChunk(source: Path, temp: Path, offset: nat, ghost begin: nat, ghost pieces: seq<Piece>)
      returns (ok: bool, more: bool, offset': nat, ghost pieces': seq<Piece>)
      requires temp.Temporary? && temp in files && source != temp && OpenFor(Now(), source)
      requires Recorded() && offset == |files[temp]| && ReadSince(source, temp, begin, pieces)
      modifies this`files, this`unsynced, this`handle, this`interventions, this`faults, this`trace
      ensures Recorded() && interventions <= old(interventions) && temp in files
      ensures Kept(old(Now()), Now(), {temp}) && Quiet(old(trace), trace, old(Now()), confirmed)
      ensures OpenFor(Now(), source) && StillOpen(old(interventions), old(handle))
      ensures if more then ok && offset < offset' <= |handle.content|
                           && files[temp] == old(files)[temp] + handle.content[offset..offset']
              else files[temp] == old(files)[temp] && offset' == offset && (ok ==> offset >= |handle.content|)
      ensures ReadSince(source, temp, begin, pieces')
      ensures faults <= old(faults) && (Smooth(old(interventions), old(faults)) ==> ok && files == old(files)[temp := files[temp]])
    {
      more, offset', pieces' := false, offset, pieces;
      ghost var t0, d0 := trace, Now();
      var piece;
      ok, piece := ReadNext(source, temp, offset, begin, pieces);
      if ok && piece != [] {
        pieces' := AppendPiece(source, temp, piece, begin, pieces, t0, d0);
        more, offset' := true, offset + |piece|;
      }
    }

    /** One read, which leaves what was copied so far alone. */
    method ReadNext(source: Path, temp: Path, offset: nat, ghost begin: nat, ghost pieces: seq<Piece>) returns (ok: bool, piece: Bytes)
      requires temp.Temporary? && OpenFor(Now(), source) && Recorded() && ReadSince(source, temp, begin, pieces)
      modifies this`files, this`handle, this`interventions, this`faults, this`trace
      ensures Recorded() && interventions <= old(interventions) && faults <= old(faults)
      ensures Kept(old(Now()), Now(), {}) && Quiet(old(trace), trace, old(Now()), confirmed)
      ensures OpenFor(Now(), source) && StillOpen(old(interventions), old(handle))
      ensures ReadSince(source, temp, begin, pieces) && files[temp] == old(files)[temp]
      ensures ok ==> if piece == [] then offset >= |handle.content|
                     else offset + |piece| <= |handle.content| && piece == handle.content[offset..offset + |piece|]
      ensures Smooth(old(interventions), old(faults)) ==> ok && files == old(files)
    {
      ghost var t0, d0 := trace, Now();
      ok, piece := ReadChunk(offset);
      assert SamePath(d0, Now(), temp);
      ReadsStay(t0, trace, source, pieces, files[temp]);
      OpenedStays(t0, trace, source, begin);
    }

    /** One read: whatever the open file holds from there on, or a part of it; nothing at its end. */
    method ReadChunk(offset: nat) returns (ok: bool, piece: Bytes)
      requires Recorded() && handle.Reading?
      modifies this`files, this`handle, this`interventions, this`faults, this`trace
      ensures Recorded() && Undisturbed(old(interventions), old(files)) && StillOpen(old(interventions), old(handle))
      ensures Kept(old(Now()), Now(), {}) && Quiet(old(trace), trace, old(Now()), confirmed)
      ensures ok ==> if piece == [] then offset >= |handle.content|
                     else offset + |piece| <= |handle.content| && piece == handle.content[offset..offset + |piece|]
      ensures faults <= old(faults) && (Smooth(old(interventions), old(faults)) ==> ok && files == old(files))
    {
      ok := Probe();
      piece := [];
      if ok && offset < |handle.content| {
        var left := |handle.content| - offset;
        var wanted: nat := *;
        piece := handle.content[offset..offset + if 0 < wanted <= left then wanted else left];
      }
    }

    /** Append what was read, keeping account of it. */
    method AppendPiece(source: Path, temp: Path, piece: Bytes, ghost begin: nat, ghost pieces: seq<Piece>,
                       ghost t0: seq<Moment>, ghost d0: Disk)
      returns (ghost pieces': seq<Piece>)
      requires temp.Temporary? && temp in files && OpenFor(Now(), source)
      requires |files[temp]| + |piece| <= |handle.content| && handle.content[|files[temp]|..|files[temp]| + |piece|] == piece != []
      requires Recorded() && ReadSince(source, temp, begin, pieces)
      requires Kept(d0, Now(), {temp}) && Quiet(t0, trace, d0, confirmed)
      modifies this`files, this`unsynced, this`trace
      ensures files == old(files)[temp := old(files)[temp] + piece] && unsynced == old(unsynced) + {temp}
      ensures Recorded() && ReadSince(source, temp, begin, pieces')
      ensures Kept(d0, Now(), {temp}) && Quiet(t0, trace, d0, confirmed)
    {
      ghost var t, d, copy := trace, Now(), files[temp];
      Append(temp, piece);
      Chain(t0, t, trace, d0, d, Now(), confirmed, {temp});
      SameMoment(t, trace, |t| - 1);
      OpenedStays(t, trace, source, begin);
      ReadOneMore(t, trace, source, pieces, copy, piece, |t| - 1);
      pieces' := pieces + [Piece(|t| - 1, |copy|)];
    }

    /** Two complete siblings of the installed file: the new image, checked, and a copy of the old one. */
    method Prepare(replacement: Path, expected: Option<string>) returns (r: Outcome, local: Path, backup: Path)
      requires Recorded()
      modifies this`files, this`unsynced, this`handle, this`interventions, this`faults, this`trace, this`stuck
      ensures Recorded()
      ensures local.Temporary? && backup.Temporary? && interventions <= old(interventions)
      ensures Kept(old(Now()), Now(), {local, backup}) && Quiet(old(trace), trace, old(Now()), confirmed)
      ensures r.Ok? ==>
                && local != backup && local in files && local !in unsynced && backup in files && backup !in unsynced
                && Current in old(files) && files[backup] == old(files)[Current]
                && (expected.Some? ==> EqIgnoreAsciiCase(digest(files[local]), expected.value))
                && (interventions == old(interventions) ==>
                      replacement in old(files) && old(files)[replacement] != [] && files[local] == old(files)[replacement])
      ensures r.Ok? ==> Received(trace, replacement, files[local])
      ensures r.Err? ==> r.error in {ReplaceFailed, ReplacementEmpty, ReplacementHashMismatch, BackupFailed}
      ensures replacement == Current ==> r == Err(ReplaceFailed)
      ensures faults <= old(faults) && (r.Ok? ==> local !in old(files) && backup !in old(files))
      ensures Smooth(old(interventions), old(faults)) && Verdict(old(files), replacement, expected, digest) == Ok ==>
                r == Ok && files == old(files)[local := old(files)[replacement]][backup := old(files)[Current]]
      ensures Spent(old(stuck), old(faults))
      ensures r.Err? ==> Tidy(old(files), files, {}, stuck)
    {
      backup := Temporary(1);
      r, local := CopyReplacement(replacement, expected);
      if r.Err? {
        return;
      }
      ghost var t, d := trace, Now();
      var ok;
      ok, backup := CopyCurrent(replacement, local);
      Chain(old(trace), t, trace, old(Now()), d, Now(), confirmed, {local, backup});
      assert SamePath(old(Now()), d, Current);
      if !ok {
        r := Err(BackupFailed);
      }
    }

    /** The copy of the installed file; if it fails the one of the replacement is dropped. */
    method CopyCurrent(replacement: Path, local: Path) returns (ok: bool, backup: Path)
      requires Recorded() && local.Temporary? && local in files && Received(trace, replacement, files[local])
      modifies this`files, this`unsynced, this`handle, this`interventions, this`faults, this`trace, this`stuck
      ensures Recorded() && backup.Temporary? && interventions <= old(interventions)
      ensures Kept(old(Now()), Now(), {local, backup}) && Quiet(old(trace), trace, old(Now()), confirmed)
      ensures ok ==> local != backup && SamePath(old(Now()), Now(), local) && backup in files && backup !in unsynced
      ensures ok ==> Current in old(files) && files[backup] == old(files)[Current]
      ensures ok ==> Received(trace, replacement, files[local])
      ensures faults <= old(faults) && (ok ==> backup !in old(files))
      ensures Smooth(old(interventions), old(faults)) && Current in old(files) ==> ok && files == old(files)[backup := old(files)[Current]]
      ensures Spent(old(stuck), old(faults))
      ensures !ok && local in files ==> local in stuck
      ensures !ok && backup in files ==> backup in old(files) || backup in stuck
    {
      ok, backup := SyncedCopy(Current);
      ghost var t, d := trace, Now();
      if ok {
        ReceivedStays(old(trace), t, replacement, old(files)[local]);
      } else {
        Remove(local);
        Chain(old(trace), t, trace, old(Now()), d, Now(), confirmed, {local, backup});
      }
    }

    /** A complete, checked copy of the replacement beside the installed file. */
    method CopyReplacement(replacement: Path, expected: Option<string>) returns (r: Outcome, local: Path)
      requires Recorded()
      modifies this`files, this`unsynced, this`handle, this`interventions, this`faults, this`trace, this`stuck
      ensures Recorded()
      ensures local.Temporary? && interventions <= old(interventions)
      ensures Kept(old(Now()), Now(), {local}) && Quiet(old(trace), trace, old(Now()), confirmed)
      ensures r.Ok? ==>
                && local in files && local !in unsynced
                && (expected.Some? ==> EqIgnoreAsciiCase(digest(files[local]), expected.value))
                && (interventions == old(interventions) ==>
                      replacement in old(files) && old(files)[replacement] != [] && files[local] == old(files)[replacement])
      ensures r.Ok? ==> Received(trace, replacement, files[local])
      ensures r.Err? ==> r.error in {ReplaceFailed, ReplacementEmpty, ReplacementHashMismatch}
      ensures replacement == Current ==> r == Err(ReplaceFailed)
      ensures faults <= old(faults) && (r.Ok? ==> local !in old(files))
      ensures Smooth(old(interventions), old(faults)) && Verdict(old(files), replacement, expected, digest) == Ok ==>
                r == Ok && files == old(files)[local := old(files)[replacement]]
      ensures Spent(old(stuck), old(faults))
      ensures r.Err? && local in files ==> local in old(files) || local in stuck
    {
      local := Temporary(0);
      if replacement == Current {
        return Err(ReplaceFailed), local;
      }
      var ok := Probe();
      if !ok || replacement !in files || files[replacement] == [] {
        return Err(ReplacementEmpty), local;
      }
      assert NonEmptyAt(trace, replacement, |trace| - 1);
      ghost var t, d := trace, Now();
      r, local := CopyChecked(replacement, expected);
      Chain(old(trace), t, trace, old(Now()), d, Now(), confirmed, {local});
      assert local in old(files) ==> SamePath(old(Now()), d, local);
    }

    method CopyChecked(replacement: Path, expected: Option<string>) returns (r: Outcome, local: Path)
      requires Recorded() && SeenNonEmpty(trace, replacement)
      modifies this`files, this`unsynced, this`handle, this`interventions, this`faults, this`trace, this`stuck
      ensures Recorded() && local.Temporary? && interventions <= old(interventions) && faults <= old(faults)
      ensures Kept(old(Now()), Now(), {local}) && Quiet(old(trace), trace, old(Now()), confirmed)
      ensures r.Ok? ==>
                && local in files && local !in unsynced && local !in old(files)
                && (expected.Some? ==> EqIgnoreAsciiCase(digest(files[local]), expected.value))
                && (interventions == old(interventions) ==> replacement in old(files) && files[local] == old(files)[replacement])
      ensures r.Ok? ==> Received(trace, replacement, files[local])
      ensures r.Err? ==> r.error in {ReplaceFailed, ReplacementHashMismatch}
      ensures Smooth(old(interventions), old(faults)) && Verdict(old(files), replacement, expected, digest) == Ok ==>
                r == Ok && files == old(files)[local := old(files)[replacement]]
      ensures Spent(old(stuck), old(faults))
      ensures r.Err? && local in files ==> local in old(files) || local in stuck
    {
      var ok;
      ok, local := SyncedCopy(replacement);
      if !ok {
        return Err(ReplaceFailed), local;
      }
      SeenStays(old(trace), trace, replacement);
      ghost var t, d := trace, Now();
      r := CheckCopy(replacement, local, expected);
      Chain(old(trace), t, trace, old(Now()), d, Now(), confirmed, {local});
    }

    method CheckCopy(replacement: Path, local: Path, expected: Option<string>) returns (r: Outcome)
      requires Recorded() && local.Temporary? && local in files && local !in unsynced && Received(trace, replacement, files[local])
      modifies this`files, this`unsynced, this`handle, this`interventions, this`faults, this`trace, this`stuck
      ensures Recorded() && interventions <= old(interventions) && faults <= old(faults)
      ensures Kept(old(Now()), Now(), {local}) && Quiet(old(trace), trace, old(Now()), confirmed)
      ensures if r.Ok?
              then && local in files && local !in unsynced && files[local] == old(files)[local] && Received(trace, replacement, files[local])
                   && (expected.Some? ==> EqIgnoreAsciiCase(digest(files[local]), expected.value))
              else r == Err(ReplacementHashMismatch) && (local in files ==> local in stuck)
      ensures Smooth(old(interventions), old(faults)) && (expected.Some? ==> EqIgnoreAsciiCase(digest(old(files)[local]), expected.value)) ==>
                r == Ok && files == old(files)
      ensures Spent(old(stuck), old(faults))
    {
      var ok := CheckDigest(local, expected);
      if ok {
        ReceivedStays(old(trace), trace, replacement, old(files)[local]);
      }
      r := if ok then Ok else Err(ReplacementHashMismatch);
    }

    /** The copy itself is hashed, not the download it came from; a bad copy is dropped. */
    method CheckDigest(local: Path, expected: Option<string>) returns (ok: bool)
      requires local.Temporary? && local in files
      requires Recorded()
      modifies this`files, this`unsynced, this`handle, this`interventions, this`faults, this`trace, this`stuck
      ensures Recorded()
      ensures interventions <= old(interventions)
      ensures Kept(old(Now()), Now(), {local}) && Quiet(old(trace), trace, old(Now()), confirmed)
      ensures ok ==> SamePath(old(Now()), Now(), local)
                     && (expected.Some? ==> EqIgnoreAsciiCase(digest(files[local]), expected.value))
      ensures faults <= old(faults)
      ensures Smooth(old(interventions), old(faults)) ==>
                && ok == (expected.Some? ==> EqIgnoreAsciiCase(digest(old(files)[local]), expected.value))
                && files == if ok then old(files) else old(files) - {local}
      ensures Spent(old(stuck), old(faults))
      ensures !ok && local in files ==> local in stuck
    {
      if expected.None? {
        return true;
      }
      ok := Probe();
      if !ok || !EqIgnoreAsciiCase(digest(files[local]), expected.value) {
        ghost var t, d := trace, Now();
        Remove(local);
        Chain(old(trace), t, trace, old(Now()), d, Now(), confirmed, {local});
        ok := false;
      }
    }

    /** One of the two renames. */
    method Publish(source: Path, destination: Path, ghost image: Bytes, ghost update: Option<Bytes>, ghost present: bool) returns (ok: bool)
      requires source.Temporary? && source in files && source !in unsynced
      requires destination == Current || destination == Backup
      requires Recorded()
      modifies this`files, this`unsynced, this`handle, this`interventions, this`faults, this`trace
      ensures Recorded()
      ensures interventions <= old(interventions) && Follows(old(trace), trace, old(Now()), Now())
      ensures if ok then Durable(Now(), destination, old(files[source])) && Kept(old(Now()), Now(), {source, destination})
              else Kept(old(Now()), Now(), {})
      ensures AllSafe(old(trace), image, update, present) && MomentSafe(Moment(old(Now()), confirmed), image, update, present) ==>
              MomentSafe(Moment(Now(), confirmed), image, update, present) ==> AllSafe(trace, image, update, present)
      ensures faults <= old(faults)
      ensures Smooth(old(interventions), old(faults)) ==> ok && files == (old(files) - {source})[destination := old(files)[source]]
    {
      ghost var t, d := trace, Now();
      ok := ReplaceFile(source, destination);
      if AllSafe(t, image, update, present)
         && MomentSafe(Moment(d, confirmed), image, update, present) && MomentSafe(Moment(Now(), confirmed), image, update, present) {
        BetweenIsSafe(t, trace, d, Now(), confirmed, image, update, present);
      }
    }

    /** Publish the backup, then the replacement; both are renames of complete files. */
    method Commit(local: Path, backup: Path, ghost present: bool) returns (r: Outcome)
      requires local.Temporary? && backup.Temporary? && local != backup
      requires local in files && local !in unsynced && backup in files && backup !in unsynced && Current in files
      requires Recorded()
      modifies this`files, this`unsynced, this`handle, this`interventions, this`faults, this`trace, this`stuck
      ensures Recorded()
      ensures interventions <= old(interventions) && Follows(old(trace), trace, old(Now()), Now())
      ensures r.Ok? ==> Durable(Now(), Current, old(files[local])) && Durable(Now(), Backup, old(files[backup]))
      ensures r.Err? ==> r.error in {BackupFailed, ReplaceFailed} && SamePath(old(Now()), Now(), Current)
      ensures r == Err(BackupFailed) ==> SamePath(old(Now()), Now(), Backup)
      ensures r == Err(ReplaceFailed) ==> Durable(Now(), Backup, old(files[backup]))
      ensures var image, update := old(files[backup]), Some(old(files[local]));
              Durable(old(Now()), Current, image) && AllSafe(old(trace), image, update, present) && !confirmed ==>
                AllSafe(trace, image, update, present)
      ensures faults <= old(faults)
      ensures Smooth(old(interventions), old(faults)) ==>
                r == Ok && files == (old(files) - {local, backup})[Backup := old(files)[backup]][Current := old(files)[local]]
      ensures Spent(old(stuck), old(faults))
      ensures Tidy(old(files), files, {local, backup}, stuck)
    {
      ghost var image, update := files[backup], Some(files[local]);
      ghost var t, d := trace, Now();
      r := PublishBoth(local, backup, present);
      ghost var t1, d1 := trace, Now();
      Drop(local, backup, image, update, present);
      FollowsChains(t, t1, trace, d, d1, Now());
      assert SamePath(d1, Now(), Current) && SamePath(d1, Now(), Backup);
      KeptIsTidy(d, d1, {local, backup, Current, Backup}, {}, stuck);
    }

    method PublishBoth(local: Path, backup: Path, ghost present: bool) returns (r: Outcome)
      requires local.Temporary? && backup.Temporary? && local != backup
      requires local in files && local !in unsynced && backup in files && backup !in unsynced && Current in files
      requires Recorded()
      modifies this`files, this`unsynced, this`handle, this`interventions, this`faults, this`trace
      ensures Recorded() && interventions <= old(interventions) && faults <= old(faults)
      ensures Follows(old(trace), trace, old(Now()), Now()) && Kept(old(Now()), Now(), {local, backup, Current, Backup})
      ensures local in files ==> local in old(files)
      ensures backup in files ==> backup in old(files)
      ensures if r.Ok? then Durable(Now(), Current, old(files[local])) else r.error in {BackupFailed, ReplaceFailed} && SamePath(old(Now()), Now(), Current)
      ensures if r == Err(BackupFailed) then SamePath(old(Now()), Now(), Backup) else Durable(Now(), Backup, old(files[backup]))
      ensures var image, update := old(files[backup]), Some(old(files[local]));
              Durable(old(Now()), Current, image) && AllSafe(old(trace), image, update, present) && !confirmed ==>
                AllSafe(trace, image, update, present) && MomentSafe(Moment(Now(), confirmed), image, update, present)
      ensures Smooth(old(interventions), old(faults)) ==>
                r == Ok && files == (old(files) - {local, backup})[Backup := old(files)[backup]][Current := old(files)[local]]
    {
      ghost var image, update := files[backup], Some(files[local]);
      ghost var t, d := trace, Now();
      var ok := Publish(backup, Backup, image, update, present);
      if !ok {
        KeptMore(d, Now(), {}, {local, backup, Current, Backup});
        return Err(BackupFailed);
      }
      ghost var t1, d1 := trace, Now();
      assert SamePath(d, d1, Current) && SamePath(d, d1, local);
      KeptMore(d, d1, {backup, Backup}, {local, backup, Current, Backup});
      ok := Publish(local, Current, image, update, present);
      assert SamePath(d1, Now(), Backup);
      r := if ok then Ok else Err(ReplaceFailed);
      FollowsChains(t, t1, trace, d, d1, Now());
      KeptMore(d1, Now(), if ok then {local, Current} else {}, {local, backup, Current, Backup});
      KeptChains(d, d1, Now(), {local, backup, Current, Backup});
    }

    /** Both pending files go out of scope; whatever is left of them is removed if possible. */
    method Drop(local: Path, backup: Path, ghost image: Bytes, ghost update: Option<Bytes>, ghost present: bool)
      requires local.Temporary? && backup.Temporary?
      requires Recorded()
      modifies this`files, this`unsynced, this`handle, this`interventions, this`faults, this`trace, this`stuck
      ensures Recorded()
      ensures interventions <= old(interventions)
      ensures Follows(old(trace), trace, old(Now()), Now()) && SameInstalled(old(Now()), Now())
      ensures AllSafe(old(trace), image, update, present) && MomentSafe(Moment(old(Now()), confirmed), image, update, present) ==>
                AllSafe(trace, image, update, present)
      ensures faults <= old(faults) && (Smooth(old(interventions), old(faults)) ==> files == old(files) - {local, backup})
      ensures Spent(old(stuck), old(faults))
      ensures Tidy(old(files), files, {local, backup}, stuck)
    {
      ghost var t0, d0 := trace, Now();
      Remove(local);
      ghost var t, d := trace, Now();
      Remove(backup);
      Chain(t0, t, trace, d0, d, Now(), confirmed, {local, backup});
      if AllSafe(t0, image, update, present) && MomentSafe(Moment(d0, confirmed), image, update, present) {
        QuietIsSafe(t0, trace, d0, confirmed, image, update, present);
      }
    }

    /** Copy the backup over the installed file; the backup stays for another try. */
    method RestorePreviousVersion() returns (r: Outcome)
      requires Recorded()
      modifies this`files, this`unsynced, this`handle, this`interventions, this`faults, this`trace, this`stuck
      ensures Recorded()
      ensures interventions <= old(interventions) && Between(old(trace), trace, old(Now()), Now(), confirmed)
      ensures SamePath(old(Now()), Now(), Backup)
      ensures r.Ok? ==> Backup in old(files) && old(files)[Backup] != [] && Durable(Now(), Current, old(files)[Backup])
      ensures r.Err? ==> r.error == RollbackFailed && SamePath(old(Now()), Now(), Current)
      ensures faults <= old(faults)
      ensures Smooth(old(interventions), old(faults)) && Backup in old(files) && old(files)[Backup] != [] ==> r == Ok && files == old(files)[Current := old(files)[Backup]]
      ensures Spent(old(stuck), old(faults))
      ensures Tidy(old(files), files, {}, stuck)
    {
      var ok := Probe();
      if !ok || Backup !in files || files[Backup] == [] {
        return Err(RollbackFailed);
      }
      ghost var t, d := trace, Now();
      SameBoth(old(Now()), d);
      r := RestoreFromBackup();
      QuietThenBetween(old(trace), t, trace, old(Now()), d, Now(), confirmed);
    }

    method RestoreFromBackup() returns (r: Outcome)
      requires Recorded() && Backup in files
      modifies this`files, this`unsynced, this`handle, this`interventions, this`faults, this`trace, this`stuck
      ensures Recorded() && interventions <= old(interventions) && faults <= old(faults)
      ensures Between(old(trace), trace, old(Now()), Now(), confirmed) && SamePath(old(Now()), Now(), Backup)
      ensures if r.Ok? then Durable(Now(), Current, old(files)[Backup]) else r.error == RollbackFailed && SamePath(old(Now()), Now(), Current)
      ensures Smooth(old(interventions), old(faults)) ==> r == Ok && files == old(files)[Current := old(files)[Backup]]
      ensures Spent(old(stuck), old(faults))
      ensures Tidy(old(files), files, {}, stuck)
    {
      var ok, local := SyncedCopy(Backup);
      ghost var t, d := trace, Now();
      assert SamePath(old(Now()), d, Current) && SamePath(old(Now()), d, Backup);
      if !ok {
        return Err(RollbackFailed);
      }
      ok := PutBack(local);
      QuietThenBetween(old(trace), t, trace, old(Now()), d, Now(), confirmed);
      r := if ok then Ok else Err(RollbackFailed);
    }

    /** Rename a complete copy over the installed file; what is left of it goes. */
    method PutBack(local: Path) returns (ok: bool)
      requires Recorded() && local.Temporary? && local in files && local !in unsynced
      modifies this`files, this`unsynced, this`handle, this`interventions, this`faults, this`trace, this`stuck
      ensures Recorded() && interventions <= old(interventions)
      ensures Between(old(trace), trace, old(Now()), Now(), confirmed) && SamePath(old(Now()), Now(), Backup)
      ensures if ok then Durable(Now(), Current, old(files[local])) else SamePath(old(Now()), Now(), Current)
      ensures faults <= old(faults) && (Smooth(old(interventions), old(faults)) ==> ok && files == (old(files) - {local})[Current := old(files)[local]])
      ensures Spent(old(stuck), old(faults))
      ensures Tidy(old(files), files, {local}, stuck)
    {
      ok := ReplaceFile(local, Current);
      ghost var t, d := trace, Now();
      assert SamePath(old(Now()), d, Backup);
      Remove(local);
      BetweenThenQuiet(old(trace), t, trace, old(Now()), d, Now(), confirmed);
    }

    // -------------------------------------------------------------- lib.rs

    /** A missing installed file with a backup beside it: put the backup back. */
    method RecoverInterruptedSwap() returns (r: Outcome)
      requires Recorded()
      modifies this`files, this`unsynced, this`handle, this`interventions, this`faults, this`trace
      ensures Recorded()
      ensures Undisturbed(old(interventions), old(files)) && Kept(old(Now()), Now(), {Current, Backup})
      ensures Between(old(trace), trace, old(Now()), Now(), confirmed)
      ensures Image(Now()) == Image(old(Now()))
      ensures r.Err? ==> r.error == RollbackFailed
      ensures Current in old(files) || Backup !in old(files) || r.Err? ==> SameInstalled(old(Now()), Now())
      ensures r.Ok? && Backup in old(files) ==> Current in files
      ensures Tidy(old(files), files, {}, stuck)
      ensures faults <= old(faults) && (Smooth(old(interventions), old(faults)) ==> r == Ok && files == Recovered(old(files)))
    {
      Others();
      SameBoth(old(Now()), Now());
      KeptMore(old(Now()), Now(), {}, {Current, Backup});
      if Current in files || Backup !in files {
        return Ok;
      }
      ghost var t, d := trace, Now();
      r := FinishSwap();
      if interventions == old(interventions) {
        SharedChains(old(files), d.files, files);
      }
      KeptChains(old(Now()), d, Now(), {Current, Backup});
      QuietThenBetween(old(trace), t, trace, old(Now()), d, Now(), confirmed);
    }

    /** The rename, if it succeeds. */
    method FinishSwap() returns (r: Outcome)
      requires Recorded() && Current !in files && Backup in files
      modifies this`files, this`unsynced, this`handle, this`interventions, this`faults, this`trace
      ensures Recorded()
      ensures Undisturbed(old(interventions), old(files)) && Kept(old(Now()), Now(), {Current, Backup})
      ensures Between(old(trace), trace, old(Now()), Now(), confirmed) && Image(Now()) == Image(old(Now()))
      ensures if r.Ok? then Current in files else r.error == RollbackFailed && SameInstalled(old(Now()), Now())
      ensures faults <= old(faults) && (Smooth(old(interventions), old(faults)) ==> r == Ok && files == Recovered(old(files)))
    {
      var ok := Probe();
      SameBoth(old(Now()), Now());
      KeptMore(old(Now()), Now(), {}, {Current, Backup});
      if !ok {
        return Err(RollbackFailed);
      }
      ghost var t, d := trace, Now();
      RenameBackup();
      if interventions == old(interventions) {
        SharedChains(old(files), d.files, files);
      }
      KeptChains(old(Now()), d, Now(), {Current, Backup});
      QuietThenBetween(old(trace), t, trace, old(Now()), d, Now(), confirmed);
      r := Ok;
    }

    method RenameBackup()
      requires Current !in files && Backup in files
      requires Recorded()
      modifies this`files, this`unsynced, this`trace
      ensures Recorded()
      ensures SharedKept(old(files), files) && Kept(old(Now()), Now(), {Current, Backup})
      ensures Between(old(trace), trace, old(Now()), Now(), confirmed)
      ensures Current in files && Image(Now()) == Image(old(Now()))
      ensures files == Recovered(old(files))
    {
      var content := files[Backup];
      files := (files - {Backup})[Current := content];
      unsynced := if Backup in unsynced then unsynced - {Backup} + {Current} else unsynced - {Current};
      ghost var t := trace;
      Record();
      assert forall i | |t| <= i < |trace| :: trace[i] == Moment(Now(), confirmed);
    }

    /** Everything checked before the first copy. */
    method Validate(replacement: Path, expected: Option<string>) returns (r: Outcome)
      requires Recorded()
      modifies this`files, this`unsynced, this`handle, this`interventions, this`faults, this`trace, this`stuck
      ensures Recorded()
      ensures interventions <= old(interventions)
      ensures Between(old(trace), trace, old(Now()), Now(), confirmed)
      ensures Image(Now()) == Image(old(Now())) && (Current in old(files) ==> Current in files)
      ensures r.Ok? ==> Current in files && replacement != Current && replacement != Backup
      ensures r.Ok? && interventions == old(interventions) ==>
                && replacement in old(files) && replacement in files && files[replacement] == old(files)[replacement]
                && (expected.Some? ==> EqIgnoreAsciiCase(digest(files[replacement]), expected.value))
      ensures faults <= old(faults)
      ensures Smooth(old(interventions), old(faults)) ==>
                && r == Verdict(Recovered(old(files)), replacement, expected, digest)
                && files == if r == Err(ReplacementHashMismatch) then Recovered(old(files)) - {replacement} else Recovered(old(files))
      ensures Spent(old(stuck), old(faults))
      ensures Tidy(old(files), files, {}, stuck)
      ensures r == Err(CurrentMissing) ==> Current !in old(files) && Backup !in old(files)
      ensures r == Err(WaitTimeout) ==> Kept(old(Now()), Now(), {})
      ensures r != Err(RelaunchFailed)
    {
      var ok := Probe();
      SameBoth(old(Now()), Now());
      if !ok {
        return Err(WaitTimeout);
      }
      ghost var t, d := trace, Now();
      r := RecoverAndValidate(replacement, expected);
      QuietThenBetween(old(trace), t, trace, old(Now()), d, Now(), confirmed);
      KeptIsTidy(old(Now()), d, {}, {}, {});
      TidyChains(old(files), d.files, files, {}, stuck);
    }

    method RecoverAndValidate(replacement: Path, expected: Option<string>) returns (r: Outcome)
      requires Recorded()
      modifies this`files, this`unsynced, this`handle, this`interventions, this`faults, this`trace, this`stuck
      ensures Recorded() && interventions <= old(interventions) && faults <= old(faults)
      ensures Between(old(trace), trace, old(Now()), Now(), confirmed)
      ensures Image(Now()) == Image(old(Now())) && (Current in old(files) ==> Current in files)
      ensures r.Ok? ==> Current in files && replacement != Current && replacement != Backup
      ensures r.Ok? && interventions == old(interventions) ==>
                && replacement in old(files) && replacement in files && files[replacement] == old(files)[replacement]
                && (expected.Some? ==> EqIgnoreAsciiCase(digest(files[replacement]), expected.value))
      ensures Smooth(old(interventions), old(faults)) ==>
                && r == Verdict(Recovered(old(files)), replacement, expected, digest)
                && files == if r == Err(ReplacementHashMismatch) then Recovered(old(files)) - {replacement} else Recovered(old(files))
      ensures Spent(old(stuck), old(faults)) && Tidy(old(files), files, {}, stuck)
      ensures r == Err(CurrentMissing) ==> Current !in old(files) && Backup !in old(files)
      ensures r != Err(RelaunchFailed) && r != Err(WaitTimeout)
    {
      r := RecoverInterruptedSwap();
      if r.Err? {
        return;
      }
      ghost var t, d, left := trace, Now(), stuck;
      r := ValidateFiles(replacement, expected);
      BetweenThenQuiet(old(trace), t, trace, old(Now()), d, Now(), confirmed);
      TidyChains(old(files), d.files, files, left, stuck);
    }

    method ValidateFiles(replacement: Path, expected: Option<string>) returns (r: Outcome)
      requires Recorded()
      modifies this`files, this`unsynced, this`handle, this`interventions, this`faults, this`trace, this`stuck
      ensures Recorded()
      ensures interventions <= old(interventions)
      ensures Quiet(old(trace), trace, old(Now()), confirmed) && SameInstalled(old(Now()), Now())
      ensures r.Err? ==> r.error != RollbackFailed
      ensures r.Ok? ==> Current in files && replacement != Current && replacement != Backup
      ensures r.Ok? && interventions == old(interventions) ==>
                && replacement in old(files) && replacement in files && files[replacement] == old(files)[replacement]
                && (expected.Some? ==> EqIgnoreAsciiCase(digest(files[replacement]), expected.value))
      ensures faults <= old(faults)
      ensures Smooth(old(interventions), old(faults)) ==>
                && r == Verdict(old(files), replacement, expected, digest)
                && files == if r == Err(ReplacementHashMismatch) then old(files) - {replacement} else old(files)
      ensures Spent(old(stuck), old(faults))
      ensures Tidy(old(files), files, {}, stuck)
      ensures r == Err(CurrentMissing) ==> Current !in old(files)
      ensures r.Err? ==> r.error in {CurrentMissing, ReplacementMissing, ReplaceFailed, ReplacementEmpty, ReplacementHashMismatch}
    {
      if Current !in files {
        return Err(CurrentMissing);
      }
      Others();
      if replacement !in files {
        return Err(ReplacementMissing);
      }
      if replacement == Current || replacement == Backup {
        return Err(ReplaceFailed);
      }
      ghost var t, d := trace, Now();
      SameBoth(old(Now()), d);
      r := ValidateContent(replacement, expected);
      QuietChains(old(trace), t, trace, old(Now()), d, confirmed);
    }

    method ValidateContent(replacement: Path, expected: Option<string>) returns (r: Outcome)
      requires Recorded() && replacement != Current && replacement != Backup && replacement in files
      modifies this`files, this`unsynced, this`handle, this`interventions, this`faults, this`trace, this`stuck
      ensures Recorded() && interventions <= old(interventions) && faults <= old(faults)
      ensures Quiet(old(trace), trace, old(Now()), confirmed) && SameInstalled(old(Now()), Now())
      ensures r.Err? ==> r.error in {ReplacementMissing, ReplacementEmpty, ReplacementHashMismatch}
      ensures r.Ok? && interventions == old(interventions) ==>
                && replacement in old(files) && replacement in files && files[replacement] == old(files)[replacement]
                && (expected.Some? ==> EqIgnoreAsciiCase(digest(files[replacement]), expected.value))
      ensures Smooth(old(interventions), old(faults)) ==>
                && r == (if old(files)[replacement] == [] then Err(ReplacementEmpty)
                         else if expected.Some? && !EqIgnoreAsciiCase(digest(old(files)[replacement]), expected.value) then Err(ReplacementHashMismatch)
                         else Ok)
                && files == if r == Err(ReplacementHashMismatch) then old(files) - {replacement} else old(files)
      ensures Spent(old(stuck), old(faults))
      ensures Tidy(old(files), files, {}, stuck)
    {
      var ok := Probe();
      SameBoth(old(Now()), Now());
      if !ok || replacement !in files {
        return Err(ReplacementMissing);
      }
      if files[replacement] == [] {
        return Err(ReplacementEmpty);
      }
      if expected.None? {
        return Ok;
      }
      ghost var t, d := trace, Now();
      r := ValidateHash(replacement, expected.value);
      QuietChains(old(trace), t, trace, old(Now()), d, confirmed);
    }

    /** The download itself is hashed before anything is copied; one that does not match is removed. */
    method ValidateHash(replacement: Path, expected: string) returns (r: Outcome)
      requires Recorded() && replacement != Current && replacement != Backup
      modifies this`files, this`unsynced, this`handle, this`interventions, this`faults, this`trace, this`stuck
      ensures Recorded() && interventions <= old(interventions)
      ensures Quiet(old(trace), trace, old(Now()), confirmed) && SameInstalled(old(Now()), Now())
      ensures r.Err? ==> r.error == ReplacementHashMismatch
      ensures r.Ok? ==> replacement in files && Kept(old(Now()), Now(), {})
      ensures r.Ok? && interventions == old(interventions) ==>
                && replacement in old(files) && files[replacement] == old(files)[replacement]
                && EqIgnoreAsciiCase(digest(files[replacement]), expected)
      ensures faults <= old(faults)
      ensures Smooth(old(interventions), old(faults)) && replacement in old(files) ==>
                && r == (if EqIgnoreAsciiCase(digest(old(files)[replacement]), expected) then Ok else Err(ReplacementHashMismatch))
                && files == if r == Ok then old(files) else old(files) - {replacement}
      ensures Spent(old(stuck), old(faults))
      ensures Tidy(old(files), files, {}, stuck)
    {
      var ok := Probe();
      assert SamePath(old(Now()), Now(), Current) && SamePath(old(Now()), Now(), Backup);
      if !ok || replacement !in files {
        return Err(ReplacementHashMismatch);
      }
      if EqIgnoreAsciiCase(digest(files[replacement]), expected) {
        return Ok;
      }
      ghost var t, d := trace, Now();
      Remove(replacement);
      assert SamePath(d, Now(), Current) && SamePath(d, Now(), Backup);
      QuietChains(old(trace), t, trace, old(Now()), d, confirmed);
      r := Err(ReplacementHashMismatch);
    }

    /** Whatever is prepared, what is installed stays as it is. */
    method PrepareSafely(replacement: Path, expected: Option<string>, ghost image: Bytes, ghost present: bool)
      returns (r: Outcome, local: Path, backup: Path)
      requires Recorded() && Current in files
      modifies this`files, this`unsynced, this`handle, this`interventions, this`faults, this`trace, this`stuck
      ensures Recorded() && interventions <= old(interventions) && faults <= old(faults)
      ensures Follows(old(trace), trace, old(Now()), Now()) && SamePath(old(Now()), Now(), Current)
      ensures r.Err? ==> r.error in {ReplaceFailed, ReplacementEmpty, ReplacementHashMismatch, BackupFailed}
      ensures r.Ok? ==>
                && local.Temporary? && backup.Temporary? && local != backup && local !in old(files) && backup !in old(files)
                && local in files && local !in unsynced && backup in files && backup !in unsynced && files[backup] == old(files)[Current]
                && (expected.Some? ==> EqIgnoreAsciiCase(digest(files[local]), expected.value))
                && (interventions == old(interventions) ==>
                      replacement in old(files) && old(files)[replacement] != [] && files[local] == old(files)[replacement])
                && Received(trace, replacement, files[local])
      ensures Durable(old(Now()), Current, image) && AllSafe(old(trace), image, None, present) && !confirmed ==>
                forall update :: AllSafe(trace, image, update, present)
      ensures Smooth(old(interventions), old(faults)) && Verdict(old(files), replacement, expected, digest) == Ok ==>
                r == Ok && files == old(files)[local := old(files)[replacement]][backup := old(files)[Current]]
      ensures Spent(old(stuck), old(faults))
      ensures r.Err? ==> Tidy(old(files), files, {}, stuck)
      ensures r.Ok? ==> Tidy(old(files), files - {local, backup}, {}, stuck)
    {
      ghost var t0, d0 := trace, Now();
      r, local, backup := Prepare(replacement, expected);
      assert SamePath(d0, Now(), Current) && SamePath(d0, Now(), Backup);
      if Durable(d0, Current, image) && AllSafe(t0, image, None, present) && !confirmed {
        QuietIsSafe(t0, trace, d0, confirmed, image, None, present);
        forall update ensures AllSafe(trace, image, update, present) {
          SafeForAnyUpdate(trace, image, update, present);
        }
      }
    }

    /** Prepare and commit. `update` is what the installed path receives, if anything. */
    method Install(replacement: Path, expected: Option<string>, ghost image: Bytes, ghost present: bool)
      returns (r: Outcome, ghost update: Option<Bytes>)
      requires Current in files
      requires Recorded()
      modifies this`files, this`unsynced, this`handle, this`interventions, this`faults, this`trace, this`stuck
      ensures Recorded()
      ensures interventions <= old(interventions) && Follows(old(trace), trace, old(Now()), Now())
      ensures r.Ok? ==> update.Some? && Durable(Now(), Current, update.value) && Durable(Now(), Backup, old(files)[Current])
      ensures r.Err? ==> r.error != RollbackFailed && SamePath(old(Now()), Now(), Current)
      ensures update.Some? && expected.Some? ==> EqIgnoreAsciiCase(digest(update.value), expected.value)
      ensures update.Some? && interventions == old(interventions) ==>
                replacement in old(files) && old(files)[replacement] != [] && update.value == old(files)[replacement]
      ensures update.Some? ==> Received(trace, replacement, update.value)
      ensures Durable(old(Now()), Current, image) && AllSafe(old(trace), image, None, present) && !confirmed ==>
                AllSafe(trace, image, update, present)
      ensures faults <= old(faults)
      ensures Smooth(old(interventions), old(faults)) && Verdict(old(files), replacement, expected, digest) == Ok ==>
                r == Ok && files == old(files)[Backup := old(files)[Current]][Current := old(files)[replacement]]
      ensures Spent(old(stuck), old(faults))
      ensures Tidy(old(files), files, {}, stuck)
      ensures r.Err? ==> r.error in {ReplaceFailed, ReplacementEmpty, ReplacementHashMismatch, BackupFailed}
    {
      update := None;
      ghost var t0, d0 := trace, Now();
      var local, backup;
      r, local, backup := PrepareSafely(replacement, expected, image, present);
      if r.Err? {
        return;
      }
      update := Some(files[local]);
      ghost var t, d, left := trace, Now(), stuck;
      r := Commit(local, backup, present);
      FollowsChains(t0, t, trace, d0, d, Now());
      ReceivedStays(t, trace, replacement, update.value);
      TidyThenRemoved(d0.files, d.files, files, {local, backup}, left, stuck);
      PublishedFiles(d0.files, local, backup, d.files[backup], update.value);
    }

    /** Remove the backup once nothing can send us back to it. */
    method RemoveBackup(ghost image: Bytes, ghost update: Option<Bytes>, ghost present: bool)
      requires confirmed && update.Some? && Durable(Now(), Current, update.value)
      requires Recorded()
      modifies this`files, this`unsynced, this`handle, this`interventions, this`faults, this`trace
      ensures Recorded()
      ensures interventions <= old(interventions)
      ensures SamePath(old(Now()), Now(), Current) && Follows(old(trace), trace, old(Now()), Now())
      ensures AllSafe(old(trace), image, update, present) ==> AllSafe(trace, image, update, present)
      ensures faults <= old(faults) && (Smooth(old(interventions), old(faults)) ==> files == old(files) - {Backup})
      ensures Tidy(old(files), files, {}, stuck)
    {
      ghost var t0, d0 := trace, Now();
      var ok := Probe();
      assert SamePath(d0, Now(), Current);
      if AllSafe(t0, image, update, present) {
        QuietIsSafe(t0, trace, d0, confirmed, image, update, present);
      }
      if ok && Backup in files {
        files, unsynced := files - {Backup}, unsynced - {Backup};
        Record();
      }
    }

    ghost method Confirm()
      modifies this`confirmed, this`trace
      ensures confirmed && trace == old(trace) + [Moment(Now(), true)]
    {
      confirmed := true;
      Record();
    }

    /** Launch the new image and wait for its acknowledgement. */
    method Launch() returns (ok: bool)
      requires Recorded()
      modifies this`files, this`handle, this`interventions, this`faults, this`trace, this`launches
      ensures Recorded() && interventions <= old(interventions) && faults <= old(faults)
      ensures Kept(old(Now()), Now(), {}) && Quiet(old(trace), trace, old(Now()), confirmed)
      ensures launches == old(launches) + [ok] && (Smooth(old(interventions), old(faults)) ==> ok && files == old(files))
    {
      ok := Probe();
      launches := launches + [ok];
    }

    /** Launch the new image if asked to; without an acknowledgement go back to the old one. */
    method LaunchOrRollBack(relaunch: bool, ghost image: Bytes, ghost update: Option<Bytes>, ghost present: bool) returns (r: Outcome)
      requires update.Some? && Durable(Now(), Current, update.value) && !confirmed
      requires Recorded()
      modifies this`files, this`unsynced, this`handle, this`interventions, this`faults, this`trace, this`confirmed, this`stuck, this`launches
      ensures Recorded()
      ensures interventions <= old(interventions) && Follows(old(trace), trace, old(Now()), Now())
      ensures r.Ok? ==> confirmed && Durable(Now(), Current, update.value)
      ensures launches == old(launches) + if relaunch then [r.Ok?] else []
      ensures r.Err? ==> relaunch && r.error in {RelaunchFailed, RollbackFailed}
      ensures r.Err? && Durable(old(Now()), Backup, image) ==>
                if r.error == RelaunchFailed then Durable(Now(), Current, image)
                else Durable(Now(), Current, update.value) && Durable(Now(), Backup, image)
      ensures Durable(old(Now()), Backup, image) && AllSafe(old(trace), image, update, present) ==>
                AllSafe(trace, image, update, present)
      ensures faults <= old(faults) && (Smooth(old(interventions), old(faults)) ==> r == Ok && files == old(files) - {Backup})
      ensures Spent(old(stuck), old(faults))
      ensures Tidy(old(files), files, {}, stuck)
    {
      ghost var safe := Durable(Now(), Backup, image) && AllSafe(trace, image, update, present);
      if relaunch {
        ghost var t, d := trace, Now();
        var launched := Launch();
        assert SamePath(d, Now(), Current) && SamePath(d, Now(), Backup);
        if safe {
          QuietIsSafe(t, trace, d, confirmed, image, update, present);
        }
        KeptIsTidy(d, Now(), {}, {}, stuck);
        if !launched {
          ghost var left, d1 := stuck, Now();
          r := RollBack(image, update, present, t, d);
          TidyChains(d.files, d1.files, files, left, stuck);
          return;
        }
      }
      ghost var t1, d1, left := trace, Now(), stuck;
      KeepNew(image, update, present);
      FollowsChains(old(trace), t1, trace, old(Now()), d1, Now());
      TidyChains(old(files), d1.files, files, left, stuck);
      r := Ok;
    }

    /** Go back to the old image, as seen from before the launch. */
    method RollBack(ghost image: Bytes, ghost update: Option<Bytes>, ghost present: bool, ghost t0: seq<Moment>, ghost d0: Disk) returns (r: Outcome)
      requires update.Some? && Durable(Now(), Current, update.value) && !confirmed && Recorded()
      requires Follows(t0, trace, d0, Now())
      modifies this`files, this`unsynced, this`handle, this`interventions, this`faults, this`trace, this`stuck
      ensures Recorded() && interventions <= old(interventions) && faults <= old(faults)
      ensures Follows(t0, trace, d0, Now())
      ensures r.Err? && r.error in {RelaunchFailed, RollbackFailed}
      ensures Durable(old(Now()), Backup, image) ==>
                if r.error == RelaunchFailed then Durable(Now(), Current, image)
                else Durable(Now(), Current, update.value) && Durable(Now(), Backup, image)
      ensures Durable(old(Now()), Backup, image) && AllSafe(old(trace), image, update, present) ==>
                AllSafe(trace, image, update, present)
      ensures Spent(old(stuck), old(faults)) && Tidy(old(files), files, {}, stuck)
    {
      ghost var t, d := trace, Now();
      r := RestorePreviousVersion();
      FollowsChains(t0, t, trace, d0, d, Now());
      if Durable(d, Backup, image) && AllSafe(t, image, update, present) {
        BetweenIsSafe(t, trace, d, Now(), confirmed, image, update, present);
      }
      if r.Ok? {
        r := Err(RelaunchFailed);
      }
    }

    /** The new image is here to stay: the backup may go. */
    method KeepNew(ghost image: Bytes, ghost update: Option<Bytes>, ghost present: bool)
      requires update.Some? && Durable(Now(), Current, update.value) && Recorded()
      modifies this`files, this`unsynced, this`handle, this`interventions, this`faults, this`trace, this`confirmed
      ensures Recorded() && interventions <= old(interventions) && faults <= old(faults) && confirmed
      ensures Follows(old(trace), trace, old(Now()), Now()) && SamePath(old(Now()), Now(), Current)
      ensures AllSafe(old(trace), image, update, present) ==> AllSafe(trace, image, update, present)
      ensures Tidy(old(files), files, {}, stuck)
      ensures Smooth(old(interventions), old(faults)) ==> files == old(files) - {Backup}
    {
      ghost var t, d := trace, Now();
      Confirm();
      ghost var t1 := trace;
      RemoveBackup(image, update, present);
      FollowsChains(t, t1, trace, d, d, Now());
    }

    /** Remove the download. */
    method Discard(replacement: Path, ghost image: Bytes, ghost update: Option<Bytes>, ghost present: bool)
      requires replacement != Current && replacement != Backup
      requires Recorded()
      modifies this`files, this`unsynced, this`handle, this`interventions, this`faults, this`trace, this`stuck
      ensures Recorded()
      ensures interventions <= old(interventions)
      ensures Follows(old(trace), trace, old(Now()), Now()) && SameInstalled(old(Now()), Now())
      ensures AllSafe(old(trace), image, update, present) && MomentSafe(Moment(old(Now()), confirmed), image, update, present) ==>
                AllSafe(trace, image, update, present)
      ensures faults <= old(faults) && (Smooth(old(interventions), old(faults)) ==> files == old(files) - {replacement})
      ensures Spent(old(stuck), old(faults))
      ensures Tidy(old(files), files, {}, stuck)
    {
      ghost var t, d := trace, Now();
      Remove(replacement);
      assert SamePath(d, Now(), Current) && SamePath(d, Now(), Backup);
      if AllSafe(t, image, update, present) && MomentSafe(Moment(d, confirmed), image, update, present) {
        QuietIsSafe(t, trace, d, confirmed, image, update, present);
      }
    }

    /** Everything from the first copy on. */
    method InstallAndLaunch(replacement: Path, relaunch: bool, expected: Option<string>, ghost image: Bytes, ghost present: bool)
      returns (r: Outcome, ghost update: Option<Bytes>)
      requires Current in files && replacement != Current && replacement != Backup && !confirmed
      requires Recorded()
      modifies this`files, this`unsynced, this`handle, this`interventions, this`faults, this`trace, this`confirmed, this`stuck, this`launches
      ensures Recorded()
      ensures interventions <= old(interventions) && Follows(old(trace), trace, old(Now()), Now())
      ensures r.Ok? ==> update.Some? && Durable(Now(), Current, update.value)
      ensures Durable(old(Now()), Current, image) && r.Err? && r.error != RollbackFailed ==> Durable(Now(), Current, image)
      ensures update.Some? && expected.Some? ==> EqIgnoreAsciiCase(digest(update.value), expected.value)
      ensures update.Some? && interventions == old(interventions) ==>
                replacement in old(files) && old(files)[replacement] != [] && update.value == old(files)[replacement]
      ensures update.Some? ==> Received(trace, replacement, update.value)
      ensures Durable(old(Now()), Current, image) && AllSafe(old(trace), image, None, present) ==> AllSafe(trace, image, update, present)
      ensures faults <= old(faults)
      ensures Smooth(old(interventions), old(faults)) && Verdict(old(files), replacement, expected, digest) == Ok ==>
                r == Ok && files == (old(files) - {replacement, Backup})[Current := old(files)[replacement]]
      ensures Spent(old(stuck), old(faults)) && Tidy(old(files), files, {}, stuck)
      ensures LaunchesFit(old(launches), r, relaunch)
      ensures r.Err? ==> r.error != CurrentMissing && r.error != WaitTimeout
    {
      ghost var t0, d0 := trace, Now();
      r, update := InstallAndDiscard(replacement, expected, image, present);
      if r.Err? {
        return;
      }
      ghost var d, left := Now(), stuck;
      r := FinishInstall(replacement, relaunch, image, update, present, t0, d0);
      TidyChains(d0.files, d.files, files, left, stuck);
    }

    /** The new image in place of the old one, which is in the backup, and the download gone. */
    method InstallAndDiscard(replacement: Path, expected: Option<string>, ghost image: Bytes, ghost present: bool)
      returns (r: Outcome, ghost update: Option<Bytes>)
      requires Current in files && replacement != Current && replacement != Backup && !confirmed
      requires Recorded()
      modifies this`files, this`unsynced, this`handle, this`interventions, this`faults, this`trace, this`stuck
      ensures Recorded() && interventions <= old(interventions) && faults <= old(faults)
      ensures Follows(old(trace), trace, old(Now()), Now())
      ensures if r.Ok? then update.Some? && Durable(Now(), Current, update.value) && Durable(Now(), Backup, old(files)[Current])
              else SamePath(old(Now()), Now(), Current)
      ensures update.Some? && expected.Some? ==> EqIgnoreAsciiCase(digest(update.value), expected.value)
      ensures update.Some? && interventions == old(interventions) ==>
                replacement in old(files) && old(files)[replacement] != [] && update.value == old(files)[replacement]
      ensures update.Some? ==> Received(trace, replacement, update.value)
      ensures Durable(old(Now()), Current, image) && AllSafe(old(trace), image, None, present) ==> AllSafe(trace, image, update, present)
      ensures Smooth(old(interventions), old(faults)) && Verdict(old(files), replacement, expected, digest) == Ok ==>
                r == Ok && files - {Backup} == (old(files) - {replacement, Backup})[Current := old(files)[replacement]]
      ensures Spent(old(stuck), old(faults)) && Tidy(old(files), files, {}, stuck)
      ensures r.Err? ==> r.error in {ReplaceFailed, ReplacementEmpty, ReplacementHashMismatch, BackupFailed}
    {
      ghost var t0, d0 := trace, Now();
      r, update := Install(replacement, expected, image, present);
      if r.Err? {
        return;
      }
      if replacement in old(files) {
        InstalledThenCleared(old(files), replacement, old(files)[Current], old(files)[replacement]);
      }
      ghost var t, d, left := trace, Now(), stuck;
      Discard(replacement, image, update, present);
      FollowsChains(t0, t, trace, d0, d, Now());
      ReceivedStays(t, trace, replacement, update.value);
      TidyChains(d0.files, d.files, files, left, stuck);
    }

    /** The launch, and what holds of the whole then. */
    method FinishInstall(replacement: Path, relaunch: bool, ghost image: Bytes, ghost update: Option<Bytes>, ghost present: bool,
                         ghost t0: seq<Moment>, ghost d0: Disk)
      returns (r: Outcome)
      requires update.Some? && Durable(Now(), Current, update.value) && !confirmed && Recorded()
      requires Follows(t0, trace, d0, Now()) && Received(trace, replacement, update.value)
      modifies this`files, this`unsynced, this`handle, this`interventions, this`faults, this`trace, this`confirmed, this`stuck, this`launches
      ensures Recorded() && interventions <= old(interventions) && faults <= old(faults)
      ensures Follows(t0, trace, d0, Now()) && Received(trace, replacement, update.value)
      ensures r.Ok? ==> confirmed && Durable(Now(), Current, update.value)
      ensures r.Err? && Durable(old(Now()), Backup, image) ==>
                if r.error == RelaunchFailed then Durable(Now(), Current, image)
                else r.error == RollbackFailed && Durable(Now(), Current, update.value) && Durable(Now(), Backup, image)
      ensures Durable(old(Now()), Backup, image) && AllSafe(old(trace), image, update, present) ==>
                AllSafe(trace, image, update, present)
      ensures Smooth(old(interventions), old(faults)) ==> r == Ok && files == old(files) - {Backup}
      ensures Spent(old(stuck), old(faults))
      ensures Tidy(old(files), files, {}, stuck)
      ensures launches == old(launches) + if relaunch then [r.Ok?] else []
      ensures r.Err? ==> relaunch && r.error in {RelaunchFailed, RollbackFailed}
    {
      ghost var t, d := trace, Now();
      r := LaunchOrRollBack(relaunch, image, update, present);
      FollowsChains(t0, t, trace, d0, d, Now());
      ReceivedStays(t, trace, replacement, update.value);
    }

    /** One run of the helper. `update` is what the installed path receives, if anything. */
    method UpdateExecutable(replacement: Path, relaunch: bool, expected: Option<string>)
      returns (r: Outcome, ghost update: Option<Bytes>)
      requires !confirmed && trace == [Moment(Now(), false)]
      modifies this`files, this`unsynced, this`handle, this`interventions, this`faults, this`trace, this`confirmed, this`stuck, this`launches
      ensures Recorded()
      ensures interventions <= old(interventions)
      ensures trace != [] && trace[0] == Moment(old(Now()), false) && SameInstalled(trace[|trace| - 1].disk, Now())
      ensures RunSafe(old(Now()), trace, Now(), r, update, expected, digest)
      ensures r.Ok? ==> update.Some?
      ensures update.Some? ==> Received(trace, replacement, update.value)
      ensures update.Some? && interventions == old(interventions) ==>
                replacement in old(files) && update.value == old(files)[replacement] != []
      ensures Smooth(old(interventions), old(faults)) ==> r == Verdict(Recovered(old(files)), replacement, expected, digest) && files == Updated(old(files), replacement, r)
      ensures faults <= old(faults)
      ensures Spent(old(stuck), old(faults)) && Tidy(old(files), files, {}, stuck)
      ensures LaunchesFit(old(launches), r, relaunch)
      ensures r == Err(CurrentMissing) ==> Current !in old(files) && Backup !in old(files)
      ensures r == Err(WaitTimeout) ==> Kept(old(Now()), Now(), {})
    {
      update := None;
      ghost var start, t0 := Now(), trace;
      r := ValidateSafely(replacement, expected);
      Traced(t0, trace, start, Now());
      if r.Err? {
        return;
      }
      ghost var t, d, left := trace, Now(), stuck;
      r, update := InstallSafely(replacement, relaunch, expected, start);
      FollowsChains(t0, t, trace, start, d, Now());
      Traced(t0, trace, start, Now());
      TidyChains(start.files, d.files, files, left, stuck);
    }

    /** The rest, as seen from the start of the run. */
    method InstallSafely(replacement: Path, relaunch: bool, expected: Option<string>, ghost start: Disk)
      returns (r: Outcome, ghost update: Option<Bytes>)
      requires Current in files && replacement != Current && replacement != Backup && !confirmed && Recorded()
      requires Image(Now()) == Image(start)
      requires Image(start).Some? ==> AllSafe(trace, Image(start).value, None, Current in start.files)
      modifies this`files, this`unsynced, this`handle, this`interventions, this`faults, this`trace, this`confirmed, this`stuck, this`launches
      ensures Recorded() && interventions <= old(interventions) && faults <= old(faults)
      ensures Follows(old(trace), trace, old(Now()), Now())
      ensures RunSafe(start, trace, Now(), r, update, expected, digest) && (r.Ok? ==> update.Some?)
      ensures update.Some? ==> Received(trace, replacement, update.value)
      ensures update.Some? && interventions == old(interventions) ==>
                replacement in old(files) && old(files)[replacement] != [] && update.value == old(files)[replacement]
      ensures Smooth(old(interventions), old(faults)) && Verdict(old(files), replacement, expected, digest) == Ok ==>
                r == Ok && files == (old(files) - {replacement, Backup})[Current := old(files)[replacement]]
      ensures Spent(old(stuck), old(faults)) && Tidy(old(files), files, {}, stuck)
      ensures LaunchesFit(old(launches), r, relaunch)
      ensures r.Err? ==> r.error != CurrentMissing && r.error != WaitTimeout
    {
      ghost var image := if Image(start).Some? then Image(start).value else [];
      r, update := InstallAndLaunch(replacement, relaunch, expected, image, Current in start.files);
    }

    /** The checks from the start of a run: a run that ends here is safe. */
    method ValidateSafely(replacement: Path, expected: Option<string>) returns (r: Outcome)
      requires !confirmed && trace == [Moment(Now(), false)]
      modifies this`files, this`unsynced, this`handle, this`interventions, this`faults, this`trace, this`stuck
      ensures Recorded() && interventions <= old(interventions) && faults <= old(faults)
      ensures Follows(old(trace), trace, old(Now()), Now())
      ensures Image(Now()) == Image(old(Now())) && (Current in old(files) ==> Current in files)
      ensures Image(old(Now())).Some? ==> AllSafe(trace, Image(old(Now())).value, None, Current in old(files))
      ensures r.Err? ==> RunSafe(old(Now()), trace, Now(), r, None, expected, digest)
      ensures r.Ok? ==> Current in files && replacement != Current && replacement != Backup
      ensures r.Ok? && interventions == old(interventions) ==>
                && replacement in old(files) && replacement in files && files[replacement] == old(files)[replacement]
                && (expected.Some? ==> EqIgnoreAsciiCase(digest(files[replacement]), expected.value))
      ensures Smooth(old(interventions), old(faults)) ==>
                && r == Verdict(Recovered(old(files)), replacement, expected, digest)
                && files == if r == Err(ReplacementHashMismatch) then Recovered(old(files)) - {replacement} else Recovered(old(files))
      ensures Spent(old(stuck), old(faults)) && Tidy(old(files), files, {}, stuck)
      ensures r == Err(CurrentMissing) ==> Current !in old(files) && Backup !in old(files)
      ensures r == Err(WaitTimeout) ==> Kept(old(Now()), Now(), {})
      ensures r != Err(RelaunchFailed)
    {
      ghost var start, t0 := Now(), trace;
      r := Validate(replacement, expected);
      if Image(start).Some? {
        BetweenIsSafe(t0, trace, start, Now(), confirmed, Image(start).value, None, Current in start.files);
      }
    }
  }

  /** What one run guarantees when there was an installed image to begin with: every moment is safe, a
      verified run only installs verified bytes, success means the new image is in place, and any error
      but a failed rollback means the old one is. */
  predicate RunSafe(start: Disk, trace: seq<Moment>, end: Disk, r: Outcome, update: Option<Bytes>,
                    expected: Option<string>, digest: Bytes -> string) {
    Image(start).Some? ==>
      var image, present := Image(start).value, Current in start.files;
      && AllSafe(trace, image, update, present)
      && (update.Some? && expected.Some? ==> EqIgnoreAsciiCase(digest(update.value), expected.value))
      && (match r
          case Ok => update.Some? && Durable(end, Current, update.value)
          case Err(e) => e != RollbackFailed ==> Shows(end, image) && (present ==> Durable(end, Current, image)))
  }
}

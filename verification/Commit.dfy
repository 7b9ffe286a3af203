/** Writing a plan file by file through the patch layer (session_service.cpp: the loop of
    session_commit). */
module Commit {
  import opened Text
  import opened TextLines
  import opened Encoding
  import opened Diff
  import opened Plan
  import opened PatchStore
  import opened StoreRuns
  import opened Undo

  datatype CommitFile = CommitFile(path: string, previewId: nat, backupId: nat, hash: string)

  /** How far a commit came: the files done, and whether it stopped. */
  datatype Progress = Progress(disk: Disk, done: seq<CommitFile>, failed: bool)

  /** One file: a preview of the planned content, applied at once against the base just previewed. */
  function CommitOne(cfg: Config, d: Disk, file: PlannedFile): (Disk, Option<CommitFile>)
  {
    var (e, p) := DoPreview(cfg, d, file.path, file.finalContent, NO_BASE);
    if p.PreviewFailed? then (e, None)
    else
      var (f, a) := DoApply(cfg, e, file.path, file.finalContent, Base(p.mtime, p.hash), Some(p.id));
      (f, if a.Applied? then Some(CommitFile(file.path, p.id, a.backupId, a.hash)) else None)
  }

  /** The first `n` files, stopping at the first that fails. */
  function CommitFirst(cfg: Config, d: Disk, files: seq<PlannedFile>, n: nat): (r: Progress)
    requires n <= |files|
    ensures |r.done| <= n && (r.failed ==> |r.done| < n)
  {
    if n == 0 then Progress(d, [], false)
    else
      var r := CommitFirst(cfg, d, files, n - 1);
      if r.failed then r
      else
        var (next, item) := CommitOne(cfg, r.disk, files[n - 1]);
        match item
        case None => Progress(next, r.done, true)
        case Some(f) => Progress(next, r.done + [f], false)
  }

  function CommitAll(cfg: Config, d: Disk, files: seq<PlannedFile>): (r: Progress)
    ensures |r.done| <= |files|
  {
    CommitFirst(cfg, d, files, |files|)
  }

  // ----- One file ------------------------------------------------------------------------

  function TickAt(cfg: Config, clock: nat): nat { clock + 1 + cfg.pace(clock) }

  /** A preview made at `clock` has not expired when the next call comes. */
  predicate InTime(cfg: Config, clock: nat)
  {
    cfg.ttl == 0 || clock / 1000 == 0 || TickAt(cfg, clock) / 1000 <= clock / 1000 + cfg.ttl
  }

  /** The file can be written: its path is allowed, what is there is text, and the clock is not too
      fast for the preview. */
  predicate Writable(cfg: Config, files: map<string, File>, path: string, clock: nat)
  {
    cfg.verdict(path) == Allowed && ReadState(cfg, files, path).Some? && InTime(cfg, TickAt(cfg, clock))
  }

  lemma FindLast(pending: seq<Preview>, p: Preview)
    requires pending != [] && pending[|pending| - 1] == p
    ensures FindPreview(pending, p.id) == Some(p)
  {
  }

  lemma LoadJustMade(cfg: Config, d: Disk, p: Preview, text: string)
    requires d.pending != [] && d.pending[|d.pending| - 1] == p
    requires p.intact && p.content == Some(text) && cfg.hash(text) == p.newHash
    ensures Overdue(cfg, p, d.clock) ==> Load(cfg, d, p.id).1.LoadFailed?
    ensures !Overdue(cfg, p, d.clock) ==> Load(cfg, d, p.id) == (d, Loaded(p, text))
  {
    hide FindPreview, Discard, Newest;
    FindLast(d.pending, p);
  }

  /** Applying the preview just made. */
  lemma ApplyJustMade(cfg: Config, e: Disk, p: Preview, text: string, s: FileState)
    requires e.pending != [] && e.pending[|e.pending| - 1] == p && p.id == e.clock && p.createdMs == p.id / 1000
    requires p.intact && p.content == Some(text) && cfg.hash(text) == p.newHash
    requires cfg.verdict(p.path) == Allowed && ReadState(cfg, e.files, p.path) == Some(s)
    requires s.mtime == p.mtime && s.hash == p.hash
    ensures var (f, a) := DoApply(cfg, e, p.path, text, Base(p.mtime, p.hash), Some(p.id));
            var t := Tick(cfg, e);
            if InTime(cfg, e.clock) then
              f == Written(cfg, t, p.path, text, s, Some(p)) && a == ApplyOutcome(cfg, f, p.path)
            else
              a.ApplyFailed? && f.files == e.files && f.backups == e.backups && f.clock == t.clock
  {
    hide ReadState, Written, ApplyOutcome, Load;
    LoadJustMade(cfg, Tick(cfg, e), p, text);
    LoadKeeps(cfg, Tick(cfg, e), p.id);
  }

  lemma OutcomeOfWritten(cfg: Config, d: Disk, path: string, content: string, s: FileState, via: Option<Preview>)
    ensures ApplyOutcome(cfg, Written(cfg, d, path, content, s, via), path).Applied? <==> '\0' !in content
    ensures var a := ApplyOutcome(cfg, Written(cfg, d, path, content, s, via), path); a.Applied? ==> a.backupId == d.clock
    ensures var a := ApplyOutcome(cfg, Written(cfg, d, path, content, s, via), path);
            a.Applied? ==> a.hash == HashWritten(cfg, content, s.format)
  {
    hide Encode, Decode, SetStatus, WithoutPreview, Newest;
    WrittenIsStable(content, s.format);
    WrittenClock(cfg, d, path, content, s, via);
  }

  lemma PreviewSees(cfg: Config, d: Disk, path: string, content: string)
    requires cfg.verdict(path) == Allowed && ReadState(cfg, d.files, path).Some?
    ensures var (e, r) := DoPreview(cfg, d, path, content, NO_BASE);
            var s := ReadState(cfg, d.files, path).value;
            r.Previewed? && r.mtime == s.mtime && r.hash == s.hash && e.files == d.files && e.backups == d.backups &&
            e.clock == TickAt(cfg, d.clock)
  {
    hide ReadState, ContextDiff, MarkEvicted, WithoutStatus;
  }

  lemma PreviewRefused(cfg: Config, d: Disk, path: string, content: string)
    requires cfg.verdict(path) != Allowed || ReadState(cfg, d.files, path).None?
    ensures var (e, r) := DoPreview(cfg, d, path, content, NO_BASE);
            r.PreviewFailed? && e == Tick(cfg, d)
  {
    hide ReadState, ContextDiff, Evict, WithoutStatus;
  }

  /** The hash that is reported of a file written with a content. */
  function HashWritten(cfg: Config, content: string, format: Format): string
  {
    match Decode(Encode(content, format)) case None => "" case Some(d) => cfg.hash(d.text)
  }

  /** The outcome of one file, in full.  It is done exactly when it can be written and its new
      content holds no NUL; it is written whenever it can be, NUL or not. */
  lemma OneFile(cfg: Config, d: Disk, file: PlannedFile)
    requires Sound(d)
    ensures var (f, item) := CommitOne(cfg, d, file);
            var fits := Writable(cfg, d.files, file.path, d.clock);
            Sound(f) && (item.Some? <==> fits && '\0' !in file.finalContent) &&
            (!fits ==> f.files == d.files && f.backups == d.backups) &&
            (item.Some? ==>
              ReadState(cfg, d.files, file.path).Some? &&
              item.value == CommitFile(file.path, TickAt(cfg, d.clock), f.clock,
                                       HashWritten(cfg, file.finalContent, ReadState(cfg, d.files, file.path).value.format)))
    ensures var (f, item) := CommitOne(cfg, d, file);
            Writable(cfg, d.files, file.path, d.clock) ==>
              var s := ReadState(cfg, d.files, file.path).value;
              f.clock == TickAt(cfg, TickAt(cfg, d.clock)) &&
              f.backups == Newest(d.backups + [BackupOf(file.path, s, f.clock)], cfg.backupKeep) &&
              BytesAt(f.files, file.path) == Some(Encode(file.finalContent, s.format)) &&
              forall p :: p != file.path ==> BytesAt(f.files, p) == BytesAt(d.files, p)
  {
    hide ReadState, DoPreview, DoApply, Written, ApplyOutcome, Encode, Newest, BackupOf, Sound, BytesAt;
    var path, content := file.path, file.finalContent;
    SoundAfterPreview(cfg, d, path, content, NO_BASE);
    if cfg.verdict(path) == Allowed && ReadState(cfg, d.files, path).Some? {
      PreviewSees(cfg, d, path, content);
      PreviewIsPending(cfg, d, path, content, NO_BASE);
      var (e, r) := DoPreview(cfg, d, path, content, NO_BASE);
      var s := ReadState(cfg, d.files, path).value;
      var p := e.pending[|e.pending| - 1];
      SoundAfterApply(cfg, e, path, content, Base(r.mtime, r.hash), Some(r.id));
      ApplyJustMade(cfg, e, p, content, s);
      var t := Tick(cfg, e);
      OutcomeOfWritten(cfg, t, path, content, s, Some(p));
      WrittenSaves(cfg, t, path, content, s, Some(p));
    } else {
      PreviewRefused(cfg, d, path, content);
    }
  }

  // ----- The whole plan ------------------------------------------------------------------

  ghost predicate DistinctPaths(files: seq<PlannedFile>)
  {
    forall i, j :: 0 <= i < j < |files| ==> files[i].path != files[j].path
  }

  /** The clock after n calls. */
  function ClockAt(cfg: Config, clock: nat, n: nat): nat
  {
    if n == 0 then clock else TickAt(cfg, ClockAt(cfg, clock, n - 1))
  }

  /** The i-th file of a plan can be written when its turn comes. */
  predicate WritableAt(cfg: Config, d: Disk, files: seq<PlannedFile>, i: nat)
    requires i < |files|
  {
    Writable(cfg, d.files, files[i].path, ClockAt(cfg, d.clock, 2 * i))
  }

  /** ... and counts as committed. */
  predicate Committable(cfg: Config, d: Disk, files: seq<PlannedFile>, i: nat)
    requires i < |files|
  {
    WritableAt(cfg, d, files, i) && '\0' !in files[i].finalContent
  }

  /** What the first `n` files of the plan have written over the old files. */
  ghost predicate WroteFirst(cfg: Config, was: map<string, File>, now: map<string, File>, files: seq<PlannedFile>, n: nat)
    requires n <= |files|
  {
    (forall i :: 0 <= i < n ==>
      ReadState(cfg, was, files[i].path).Some? &&
      BytesAt(now, files[i].path) ==
        Some(Encode(files[i].finalContent, ReadState(cfg, was, files[i].path).value.format))) &&
    forall p :: (forall i :: 0 <= i < n ==> files[i].path != p) ==> BytesAt(now, p) == BytesAt(was, p)
  }

  /** The backups of the first `n` files. */
  function BackupsOf(cfg: Config, d: Disk, files: seq<PlannedFile>, n: nat): (out: seq<Backup>)
    requires n <= |files|
    ensures |out| == n
  {
    if n == 0 then []
    else
      var s := ReadState(cfg, d.files, files[n - 1].path);
      BackupsOf(cfg, d, files, n - 1) +
      [BackupOf(files[n - 1].path, s.GetOr(FileState(false, "", "", "", PLAIN)), ClockAt(cfg, d.clock, 2 * n))]
  }

  /** The backup directory once the first `n` files are written. */
  predicate SavedFirst(cfg: Config, d: Disk, files: seq<PlannedFile>, n: nat, backups: seq<Backup>)
    requires n <= |files|
  {
    backups == if n == 0 then d.backups else Newest(d.backups + BackupsOf(cfg, d, files, n), cfg.backupKeep)
  }

  lemma SavedNext(cfg: Config, d: Disk, files: seq<PlannedFile>, n: nat, backups: seq<Backup>, s: FileState)
    requires n < |files| && SavedFirst(cfg, d, files, n, backups)
    requires ReadState(cfg, d.files, files[n].path) == Some(s)
    ensures SavedFirst(cfg, d, files, n + 1,
                       Newest(backups + [BackupOf(files[n].path, s, ClockAt(cfg, d.clock, 2 * n + 2))], cfg.backupKeep))
  {
    hide ReadState, BackupOf, Newest;
    var b := BackupOf(files[n].path, s, ClockAt(cfg, d.clock, 2 * n + 2));
    if n == 0 {
      assert [] + [b] == [b];
    } else {
      NewestTwice(d.backups, BackupsOf(cfg, d, files, n), b, cfg.backupKeep);
    }
  }

  lemma NewestTwice(a: seq<Backup>, news: seq<Backup>, b: Backup, keep: nat)
    ensures Newest(Newest(a + news, keep) + [b], keep) == Newest(a + (news + [b]), keep)
  {
    assert a + (news + [b]) == a + news + [b];
  }

  /** Reading a file depends on its bytes, but for the write time. */
  lemma SameBytesRead(cfg: Config, a: map<string, File>, b: map<string, File>, path: string)
    requires BytesAt(a, path) == BytesAt(b, path)
    ensures var s, t := ReadState(cfg, a, path), ReadState(cfg, b, path);
            (s.Some? <==> t.Some?) &&
            (s.Some? ==> s.value.present == t.value.present && s.value.text == t.value.text && s.value.format == t.value.format)
  {
    hide Decode;
  }

  /** Where a commit of the first `n` files has come to: all the files done could be committed, the
      next one could not; exactly those are written, and the next one as well if only a NUL in its
      content stopped it; every file written has its backup. */
  ghost predicate CameTo(cfg: Config, d: Disk, files: seq<PlannedFile>, n: nat, r: Progress)
    requires n <= |files|
  {
    var k := |r.done|;
    k <= n && Sound(r.disk) &&
    (forall i :: 0 <= i < k ==> Committable(cfg, d, files, i) && r.done[i] == Reported(cfg, d, files, i)) &&
    (r.failed <==> k < n) && (k < n ==> !Committable(cfg, d, files, k)) &&
    var written := WrittenBy(cfg, d, files, n, k);
    WroteFirst(cfg, d.files, r.disk.files, files, written) &&
    SavedFirst(cfg, d, files, written, r.disk.backups) &&
    (!r.failed ==> r.disk.clock == ClockAt(cfg, d.clock, 2 * n))
  }

  /** What the commit reports of its i-th file: its path, its preview, its backup, and the hash it now has. */
  function Reported(cfg: Config, d: Disk, files: seq<PlannedFile>, i: nat): CommitFile
    requires i < |files|
  {
    var s := ReadState(cfg, d.files, files[i].path);
    CommitFile(files[i].path, ClockAt(cfg, d.clock, 2 * i + 1), ClockAt(cfg, d.clock, 2 * i + 2),
               if s.Some? then HashWritten(cfg, files[i].finalContent, s.value.format) else "")
  }

  function WrittenBy(cfg: Config, d: Disk, files: seq<PlannedFile>, n: nat, done: nat): (w: nat)
    requires done <= n <= |files|
    ensures done <= w <= n
  {
    if done < n && WritableAt(cfg, d, files, done) then done + 1 else done
  }

  lemma NothingCommitted(cfg: Config, d: Disk, files: seq<PlannedFile>)
    requires Sound(d)
    ensures CameTo(cfg, d, files, 0, CommitFirst(cfg, d, files, 0))
  {
    hide ReadState, Encode;
  }

  /** The step of one file, seen from the disk before the commit. */
  lemma NextFile(cfg: Config, d: Disk, files: seq<PlannedFile>, n: nat, r: Progress)
    requires n < |files| && DistinctPaths(files) && CameTo(cfg, d, files, n, r) && !r.failed
    ensures var (next, item) := CommitOne(cfg, r.disk, files[n]);
            Sound(next) && (item.Some? <==> Committable(cfg, d, files, n)) &&
            (item.Some? ==> item.value == Reported(cfg, d, files, n)) &&
            (!WritableAt(cfg, d, files, n) ==> next.files == r.disk.files && next.backups == r.disk.backups)
    ensures var (next, item) := CommitOne(cfg, r.disk, files[n]);
            WritableAt(cfg, d, files, n) ==>
              next.clock == ClockAt(cfg, d.clock, 2 * n + 2) &&
              WroteFirst(cfg, d.files, next.files, files, n + 1) && SavedFirst(cfg, d, files, n + 1, next.backups)
  {
    hide ReadState, Encode, BytesAt, CommitOne, Sound, BackupOf, Newest, InTime, SavedFirst, WroteFirst;
    var path := files[n].path;
    var next := CommitOne(cfg, r.disk, files[n]).0;
    SameFileReads(cfg, d.files, r.disk.files, files, n);
    SameBytesRead(cfg, d.files, r.disk.files, path);
    OneFile(cfg, r.disk, files[n]);
    ClockSteps(cfg, d.clock, 2 * n);
    if WritableAt(cfg, d, files, n) {
      var s, t := ReadState(cfg, r.disk.files, path).value, ReadState(cfg, d.files, path).value;
      SameBackup(path, s, t, next.clock);
      SavedNext(cfg, d, files, n, r.disk.backups, t);
      WroteNext(cfg, d.files, r.disk.files, next.files, files, n);
    }
  }

  lemma CameFurther(cfg: Config, d: Disk, files: seq<PlannedFile>, n: nat, r: Progress)
    requires n < |files| && DistinctPaths(files) && CameTo(cfg, d, files, n, r) && !r.failed
    ensures var (next, item) := CommitOne(cfg, r.disk, files[n]);
            CameTo(cfg, d, files, n + 1,
                   if item.None? then Progress(next, r.done, true) else Progress(next, r.done + [item.value], false))
  {
    hide CommitOne, Sound, SavedFirst, WroteFirst, WritableAt, DistinctPaths, ClockAt;
    var (next, item) := CommitOne(cfg, r.disk, files[n]);
    NextFile(cfg, d, files, n, r);
    if !WritableAt(cfg, d, files, n) {
      WroteSame(cfg, d.files, r.disk.files, next.files, files, n);
    }
  }

  lemma SameBackup(path: string, s: FileState, t: FileState, clock: nat)
    requires s.present == t.present && s.text == t.text && s.format == t.format
    ensures BackupOf(path, s, clock) == BackupOf(path, t, clock)
  {
  }

  lemma ClockSteps(cfg: Config, clock: nat, n: nat)
    ensures ClockAt(cfg, clock, n + 2) == TickAt(cfg, TickAt(cfg, ClockAt(cfg, clock, n)))
  {
  }

  lemma SameFileReads(cfg: Config, was: map<string, File>, now: map<string, File>, files: seq<PlannedFile>, n: nat)
    requires n < |files| && DistinctPaths(files) && WroteFirst(cfg, was, now, files, n)
    ensures BytesAt(now, files[n].path) == BytesAt(was, files[n].path)
  {
    hide ReadState, Encode, BytesAt;
  }

  lemma WroteNext(cfg: Config, was: map<string, File>, now: map<string, File>, next: map<string, File>,
                  files: seq<PlannedFile>, n: nat)
    requires n < |files| && DistinctPaths(files) && WroteFirst(cfg, was, now, files, n)
    requires ReadState(cfg, was, files[n].path).Some?
    requires BytesAt(next, files[n].path) ==
             Some(Encode(files[n].finalContent, ReadState(cfg, was, files[n].path).value.format))
    requires forall p :: p != files[n].path ==> BytesAt(next, p) == BytesAt(now, p)
    ensures WroteFirst(cfg, was, next, files, n + 1)
  {
    hide ReadState, Encode, BytesAt;
    forall p | forall i :: 0 <= i < n + 1 ==> files[i].path != p ensures BytesAt(next, p) == BytesAt(was, p) {
      assert files[n].path != p;
    }
  }

  lemma WroteSame(cfg: Config, was: map<string, File>, now: map<string, File>, next: map<string, File>,
                  files: seq<PlannedFile>, n: nat)
    requires n <= |files| && WroteFirst(cfg, was, now, files, n) && next == now
    ensures WroteFirst(cfg, was, next, files, n)
  {
  }

  /** Commit refinement and prefix safety, for every disk and every plan. */
  lemma {:induction false} CommitComes(cfg: Config, d: Disk, files: seq<PlannedFile>, n: nat)
    requires n <= |files| && DistinctPaths(files) && Sound(d)
    ensures CameTo(cfg, d, files, n, CommitFirst(cfg, d, files, n))
  {
    hide CameTo, CommitOne, Sound, DistinctPaths;
    if n == 0 {
      NothingCommitted(cfg, d, files);
    } else {
      CommitComes(cfg, d, files, n - 1);
      var r := CommitFirst(cfg, d, files, n - 1);
      if r.failed {
        StoppedStays(cfg, d, files, n - 1, r);
      } else {
        CameFurther(cfg, d, files, n - 1, r);
      }
    }
  }

  lemma StoppedStays(cfg: Config, d: Disk, files: seq<PlannedFile>, n: nat, r: Progress)
    requires n < |files| && CameTo(cfg, d, files, n, r) && r.failed
    ensures CameTo(cfg, d, files, n + 1, r)
  {
    hide Sound, WroteFirst, WritableAt, Newest, BackupsOf;
  }

  // ----- Undoing a commit ----------------------------------------------------------------

  lemma {:induction false} BackupAt(cfg: Config, d: Disk, files: seq<PlannedFile>, n: nat, j: nat)
    requires j < n <= |files| && ReadState(cfg, d.files, files[j].path).Some?
    ensures BackupsOf(cfg, d, files, n)[j] ==
            BackupOf(files[j].path, ReadState(cfg, d.files, files[j].path).value, ClockAt(cfg, d.clock, 2 * j + 2))
  {
    hide ReadState, BackupOf;
    if j < n - 1 { BackupAt(cfg, d, files, n - 1, j); }
  }

  lemma FindUnique(backups: seq<Backup>, i: nat, clock: nat)
    requires RisingBackups(backups, clock) && i < |backups|
    ensures FindBackup(backups, backups[i].id, backups[i].name) == Some(backups[i])
  {
  }

  lemma BackupSaves(cfg: Config, files: map<string, File>, path: string, d: Disk, s: FileState, clock: nat)
    requires ReadState(cfg, files, path) == Some(s)
    requires FindBackup(d.backups, clock, Sanitized(path)) == Some(BackupOf(path, s, clock))
    ensures Saves(d, path, clock, BytesAt(files, path))
  {
    hide FindBackup, Sanitized, Decode, Encode;
  }

  /** As many files as the retention allows: every backup a commit made is still there. */
  lemma CommitSaves(cfg: Config, d: Disk, files: seq<PlannedFile>, now: Disk, n: nat, j: nat)
    requires j < n <= |files| && ReadState(cfg, d.files, files[j].path).Some?
    requires Sound(now) && SavedFirst(cfg, d, files, n, now.backups)
    requires cfg.backupKeep == 0 || n <= cfg.backupKeep
    ensures Saves(now, files[j].path, ClockAt(cfg, d.clock, 2 * j + 2), BytesAt(d.files, files[j].path))
  {
    hide ReadState, BackupOf, FindBackup, Saves;
    var news := BackupsOf(cfg, d, files, n);
    var i := |now.backups| - n + j;
    assert now.backups[i] == news[j];
    BackupAt(cfg, d, files, n, j);
    FindUnique(now.backups, i, now.clock);
    var s, clock := ReadState(cfg, d.files, files[j].path).value, ClockAt(cfg, d.clock, 2 * j + 2);
    BackupNamed(files[j].path, s, clock);
    BackupSaves(cfg, d.files, files[j].path, now, s, clock);
  }

  lemma BackupNamed(path: string, s: FileState, clock: nat)
    ensures BackupOf(path, s, clock).id == clock && BackupOf(path, s, clock).name == Sanitized(path)
  {
  }

  /** How many files a commit writes, whether it goes through or stops. */
  function Reach(cfg: Config, d: Disk, files: seq<PlannedFile>): (w: nat)
    ensures w <= |files|
  {
    WrittenBy(cfg, d, files, |files|, |CommitAll(cfg, d, files).done|)
  }

  /** The backup of the j-th file a commit writes. */
  function TargetOf(cfg: Config, d: Disk, files: seq<PlannedFile>, j: nat): Target
    requires j < |files|
  {
    Target(files[j].path, ClockAt(cfg, d.clock, 2 * j + 2))
  }

  /** `order` rolls back each of the first `n` files and nothing else. */
  ghost predicate UndoesFirst(cfg: Config, d: Disk, files: seq<PlannedFile>, n: nat, order: seq<Target>)
    requires n <= |files|
  {
    (forall i :: 0 <= i < |order| ==> exists j :: 0 <= j < n && order[i] == TargetOf(cfg, d, files, j)) &&
    forall j :: 0 <= j < n ==> Touches(order, files[j].path)
  }

  ghost predicate Among(files: seq<PlannedFile>, n: nat, p: string)
    requires n <= |files|
  {
    exists j :: 0 <= j < n && files[j].path == p
  }

  lemma CommitReach(cfg: Config, d: Disk, files: seq<PlannedFile>)
    requires DistinctPaths(files) && Sound(d)
    ensures var r := CommitAll(cfg, d, files);
            |r.done| <= |files| && |r.done| <= Reach(cfg, d, files) <= |r.done| + 1 &&
            CameTo(cfg, d, files, |files|, r) &&
            WroteFirst(cfg, d.files, r.disk.files, files, Reach(cfg, d, files)) &&
            SavedFirst(cfg, d, files, Reach(cfg, d, files), r.disk.backups) && Sound(r.disk) &&
            forall j :: 0 <= j < Reach(cfg, d, files) ==> WritableAt(cfg, d, files, j)
  {
    hide WroteFirst, SavedFirst, Sound, CommitFirst, ClockAt, WritableAt, DistinctPaths;
    CommitComes(cfg, d, files, |files|);
    forall j | 0 <= j < Reach(cfg, d, files) ensures WritableAt(cfg, d, files, j) {
      assert j < |CommitAll(cfg, d, files).done| ==> Committable(cfg, d, files, j);
    }
  }

  lemma UndoTouches(cfg: Config, d: Disk, files: seq<PlannedFile>, n: nat, order: seq<Target>)
    requires n <= |files| && UndoesFirst(cfg, d, files, n, order)
    ensures forall p :: Touches(order, p) <==> Among(files, n, p)
    ensures n == 0 ==> order == []
  {
    hide ClockAt;
    if order != [] {
      var j :| 0 <= j < n && order[0] == TargetOf(cfg, d, files, j);
    }
    forall p ensures Touches(order, p) <==> Among(files, n, p) {
      if Touches(order, p) {
        var i :| 0 <= i < |order| && order[i].path == p;
        var j :| 0 <= j < n && order[i] == TargetOf(cfg, d, files, j);
        assert files[j].path == p;
      }
    }
  }

  /** Rolling back the first `n` of the files a commit has written, in any order: these have their old
      bytes, written canonically, or are gone if they did not exist; every other path keeps what the
      commit left. */
  lemma UndoFirst(cfg: Config, d: Disk, files: seq<PlannedFile>, n: nat, order: seq<Target>)
    requires DistinctPaths(files) && Sound(d)
    requires n <= Reach(cfg, d, files) && UndoesFirst(cfg, d, files, n, order)
    requires cfg.backupKeep == 0 || Reach(cfg, d, files) <= cfg.backupKeep
    ensures var r := CommitAll(cfg, d, files);
            forall p :: BytesAt(RollbackAll(cfg, r.disk, order).files, p) ==
              if Among(files, n, p) then Recovered(BytesAt(d.files, p)) else BytesAt(r.disk.files, p)
  {
    hide CameTo, ReadState, Sound, BytesAt, CommitAll, RollbackAll, DistinctPaths, Recovered, Saves, ClockAt,
      SavedFirst, WroteFirst, Reach, Touches, Among, InTime;
    var r, w := CommitAll(cfg, d, files), Reach(cfg, d, files);
    CommitReach(cfg, d, files);
    UndoTouches(cfg, d, files, n, order);
    if n == 0 {
      NoRollbacks(cfg, r.disk, order);
    } else {
      CommitKept(cfg, d, files, w, r.disk);
      forall i | 0 <= i < |order|
        ensures cfg.verdict(order[i].path) == Allowed &&
                Saves(r.disk, order[i].path, order[i].id, BytesAt(d.files, order[i].path))
      {
        var j :| 0 <= j < n && order[i] == TargetOf(cfg, d, files, j);
        assert WritableAt(cfg, d, files, j);
        CommitSaves(cfg, d, files, r.disk, w, j);
      }
      RollbackAnyOrder(cfg, r.disk, order, d.files);
    }
    NothingAmong(files, n);
  }

  lemma NothingAmong(files: seq<PlannedFile>, n: nat)
    requires n <= |files|
    ensures n == 0 ==> forall p :: !Among(files, n, p)
  {
  }

  lemma WroteOthers(cfg: Config, was: map<string, File>, now: map<string, File>, files: seq<PlannedFile>, n: nat)
    requires n <= |files| && WroteFirst(cfg, was, now, files, n)
    ensures forall p :: !Among(files, n, p) ==> BytesAt(now, p) == BytesAt(was, p)
  {
    hide ReadState, Encode, BytesAt;
    forall p | !Among(files, n, p) ensures BytesAt(now, p) == BytesAt(was, p) {
      assert forall i :: 0 <= i < n ==> files[i].path != p;
    }
  }

  /** The old files a rollback restores to the byte. */
  ghost predicate AllCanonical(was: map<string, File>, files: seq<PlannedFile>, n: nat)
    requires n <= |files|
  {
    forall i :: 0 <= i < n && files[i].path in was ==> CanonicalFile(was[files[i].path].bytes)
  }

  lemma RestoredIff(was: map<string, File>, files: seq<PlannedFile>, n: nat)
    requires n <= |files|
    ensures (forall p :: Among(files, n, p) ==> Recovered(BytesAt(was, p)) == BytesAt(was, p)) <==>
            AllCanonical(was, files, n)
  {
    hide CanonicalFile, Recovered, BytesAt;
    forall p ensures Recovered(BytesAt(was, p)) == BytesAt(was, p) <==> (p in was ==> CanonicalFile(was[p].bytes)) {
      RecoveredIs(was, p);
    }
    forall i | 0 <= i < n ensures Among(files, n, files[i].path) {
    }
  }

  /** Undoing any commit, finished or stopped: rolling back the files it wrote, in any order, restores
      every one of them to its old bytes written canonically, removes those that did not exist, and
      leaves the rest, as long as the commit wrote no more files than backups are kept.  The workspace
      then has exactly its old bytes if and only if every written file that existed had canonical line
      ends. */
  lemma CommitUndone(cfg: Config, d: Disk, files: seq<PlannedFile>, order: seq<Target>)
    requires DistinctPaths(files) && Sound(d)
    requires UndoesFirst(cfg, d, files, Reach(cfg, d, files), order)
    requires cfg.backupKeep == 0 || Reach(cfg, d, files) <= cfg.backupKeep
    ensures var e, w := RollbackAll(cfg, CommitAll(cfg, d, files).disk, order), Reach(cfg, d, files);
            (forall p :: BytesAt(e.files, p) ==
              if Among(files, w, p) then Recovered(BytesAt(d.files, p)) else BytesAt(d.files, p)) &&
            ((forall p :: BytesAt(e.files, p) == BytesAt(d.files, p)) <==> AllCanonical(d.files, files, w))
  {
    hide CameTo, Sound, BytesAt, CommitAll, RollbackAll, DistinctPaths, Recovered, WroteFirst, SavedFirst, Reach, Among,
      AllCanonical, UndoesFirst;
    var w := Reach(cfg, d, files);
    CommitReach(cfg, d, files);
    UndoFirst(cfg, d, files, w, order);
    WroteOthers(cfg, d.files, CommitAll(cfg, d, files).disk.files, files, w);
    RestoredIff(d.files, files, w);
  }

  /** The rollbacks a commit's own report names. */
  lemma ReportedTargets(cfg: Config, d: Disk, files: seq<PlannedFile>, j: nat)
    requires DistinctPaths(files) && Sound(d) && j < |CommitAll(cfg, d, files).done|
    ensures var f := CommitAll(cfg, d, files).done[j];
            j < |files| && Target(f.path, f.backupId) == TargetOf(cfg, d, files, j)
  {
    hide WroteFirst, SavedFirst, Sound, CommitFirst, ClockAt, WritableAt, DistinctPaths, WrittenBy;
    CommitComes(cfg, d, files, |files|);
  }

  /** A file stopped by a NUL in its new content is left changed. */
  lemma NulIsLeft(cfg: Config, d: Disk, files: seq<PlannedFile>)
    requires DistinctPaths(files) && Sound(d)
    requires Reach(cfg, d, files) > |CommitAll(cfg, d, files).done|
    ensures var r, k := CommitAll(cfg, d, files), |CommitAll(cfg, d, files).done|;
            k < |files| && !Among(files, k, files[k].path) &&
            BytesAt(r.disk.files, files[k].path) != BytesAt(d.files, files[k].path)
  {
    hide ReadState, CommitFirst, Sound, SavedFirst, ClockAt, InTime, BytesAt;
    CommitReach(cfg, d, files);
    var k := |CommitAll(cfg, d, files).done|;
    NulUnreadable(cfg, d.files, files[k].path, files[k].finalContent);
  }

  lemma NulUnreadable(cfg: Config, was: map<string, File>, path: string, content: string)
    requires '\0' in content && ReadState(cfg, was, path).Some?
    ensures BytesAt(was, path) != Some(Encode(content, ReadState(cfg, was, path).value.format))
  {
    hide Decode, Encode;
    WrittenIsStable(content, ReadState(cfg, was, path).value.format);
  }

  /** Rolling back what a commit reports as done, in any order, restores the workspace to the byte if
      and only if the commit was not stopped by a NUL, whose file is written but not reported, and the
      reported files that existed had canonical line ends. */
  lemma ReportedUndone(cfg: Config, d: Disk, files: seq<PlannedFile>, order: seq<Target>)
    requires DistinctPaths(files) && Sound(d)
    requires UndoesFirst(cfg, d, files, |CommitAll(cfg, d, files).done|, order)
    requires cfg.backupKeep == 0 || Reach(cfg, d, files) <= cfg.backupKeep
    ensures var r := CommitAll(cfg, d, files);
            var e := RollbackAll(cfg, r.disk, order);
            (forall p :: BytesAt(e.files, p) == BytesAt(d.files, p)) <==>
            Reach(cfg, d, files) == |r.done| && AllCanonical(d.files, files, |r.done|)
  {
    hide CameTo, Sound, BytesAt, CommitAll, RollbackAll, DistinctPaths, Recovered, WroteFirst, SavedFirst, Reach, Among,
      AllCanonical, UndoesFirst, WritableAt;
    var r, k := CommitAll(cfg, d, files), |CommitAll(cfg, d, files).done|;
    CommitReach(cfg, d, files);
    UndoFirst(cfg, d, files, k, order);
    RestoredIff(d.files, files, k);
    if Reach(cfg, d, files) > k {
      NulIsLeft(cfg, d, files);
    } else {
      WroteOthers(cfg, d.files, r.disk.files, files, k);
    }
  }

  lemma RecoveredIs(files: map<string, File>, path: string)
    ensures Recovered(BytesAt(files, path)) == BytesAt(files, path) <==>
            (path in files ==> CanonicalFile(files[path].bytes))
  {
    hide Rewritten, CanonicalFile;
    if path in files { RewrittenIs(files[path].bytes); }
  }

  lemma NoRollbacks(cfg: Config, d: Disk, order: seq<Target>)
    requires order == []
    ensures RollbackAll(cfg, d, order) == d
  {
  }

  lemma CommitKept(cfg: Config, d: Disk, files: seq<PlannedFile>, n: nat, now: Disk)
    requires 0 < n <= |files| && SavedFirst(cfg, d, files, n, now.backups)
    ensures AllKept(cfg, now)
  {
  }

  /** A commit that stops after it has written: one new file with the content NUL. */
  lemma NulStops(cfg: Config, path: string, clock: nat)
    requires cfg.verdict(path) == Allowed && InTime(cfg, TickAt(cfg, clock))
    ensures var r := CommitAll(cfg, Disk(map[], [], [], [], clock), [PlannedFile(path, "", "\0")]);
            r.failed && r.done == [] && BytesAt(r.disk.files, path) == Some("\0")
  {
    hide CommitOne, BytesAt;
    var d, files := Disk(map[], [], [], [], clock), [PlannedFile(path, "", "\0")];
    var (next, item) := CommitOne(cfg, d, files[0]);
    assert CommitFirst(cfg, d, files, 0) == Progress(d, [], false);
    OneFile(cfg, d, files[0]);
    NulAlone();
    assert item.None?;
    assert CommitFirst(cfg, d, files, 1) == Progress(next, [], true);
    assert CommitAll(cfg, d, files) == CommitFirst(cfg, d, files, 1);
    NewFileReads(cfg, path);
  }

  lemma NewFileReads(cfg: Config, path: string)
    ensures ReadState(cfg, map[], path).Some? && ReadState(cfg, map[], path).value.format == PLAIN
  {
  }

  lemma NulAlone()
    ensures Encode("\0", PLAIN) == "\0" && '\0' in "\0"
  {
    StripCROfClean("\0");
    assert "\0"[0] == '\0';
  }
}

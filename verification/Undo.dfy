/** Rolling patches back (patch_service.cpp: patch_apply, patch_rollback). */
module Undo {
  import opened Text
  import opened Encoding
  import opened PatchStore
  import opened StoreRuns

  /** The bytes a backup of a file holds: the file decoded and written again. */
  function Rewritten(raw: string): string
  {
    match Decode(raw) case None => raw case Some(d) => Encode(d.text, d.format)
  }

  ghost predicate CanonicalFile(raw: string)
  {
    Decode(raw).Some? ==> Canonical(Decode(raw).value.text)
  }

  lemma RewrittenIs(raw: string)
    ensures Rewritten(raw) == raw <==> CanonicalFile(raw)
  {
    hide Canonical, Encode, Decode;
    if Decode(raw).Some? { WriteBack(raw); }
  }

  function BytesAt(files: map<string, File>, path: string): Option<string>
  {
    if path in files then Some(files[path].bytes) else None
  }

  /** The text of a file: "" for a missing one, None for one that is not text. */
  function TextAt(files: map<string, File>, path: string): Option<string>
  {
    if path !in files then Some("")
    else match Decode(files[path].bytes) case None => None case Some(d) => Some(d.text)
  }

  /** When a preview shows the file was written: not at all for a missing one. */
  function StampAt(cfg: Config, files: map<string, File>, path: string): string
  {
    if path in files then cfg.stamp(files[path].ticks) else ""
  }

  /** What a rollback brings back of what was there before. */
  function Recovered(was: Option<string>): Option<string>
  {
    match was case None => None case Some(raw) => Some(Rewritten(raw))
  }

  /** The backup `id` of a path holds what the path had. */
  predicate Saves(d: Disk, path: string, id: nat, was: Option<string>)
  {
    match FindBackup(d.backups, id, Sanitized(path))
    case None => false
    case Some(b) => if b.existed then Recovered(was) == Some(b.bytes) else was.None?
  }

  predicate AllKept(cfg: Config, d: Disk) { cfg.backupKeep == 0 || |d.backups| <= cfg.backupKeep }

  lemma {:induction false} FindLastBackup(backups: seq<Backup>, b: Backup)
    ensures FindBackup(backups + [b], b.id, b.name) == Some(b)
  {
  }

  lemma NewestLast(backups: seq<Backup>, b: Backup, keep: nat)
    ensures FindBackup(Newest(backups + [b], keep), b.id, b.name) == Some(b)
  {
    hide FindBackup;
    var rest := Newest(backups + [b], keep);
    assert rest == rest[..|rest| - 1] + [b];
    FindLastBackup(rest[..|rest| - 1], b);
  }

  /** The backup written with a file holds what was there before. */
  lemma WrittenSaves(cfg: Config, d: Disk, path: string, content: string, s: FileState, via: Option<Preview>)
    requires ReadState(cfg, d.files, path) == Some(s)
    ensures Saves(Written(cfg, d, path, content, s, via), path, d.clock, BytesAt(d.files, path))
    ensures BytesAt(Written(cfg, d, path, content, s, via).files, path) == Some(Encode(content, s.format))
    ensures forall p :: p != path ==>
              BytesAt(Written(cfg, d, path, content, s, via).files, p) == BytesAt(d.files, p)
    ensures Written(cfg, d, path, content, s, via).backups ==
            Newest(d.backups + [BackupOf(path, s, d.clock)], cfg.backupKeep)
    ensures Written(cfg, d, path, content, s, via).clock == d.clock
  {
    hide FindBackup, Newest, Encode, Decode, Sanitized, SetStatus, WithoutPreview;
    NewestLast(d.backups, BackupOf(path, s, d.clock), cfg.backupKeep);
  }

  /** A rollback to a backup restores what the backup saves, and touches no other file. */
  lemma RollbackRestores(cfg: Config, d: Disk, path: string, id: nat, was: Option<string>)
    requires cfg.verdict(path) == Allowed && Saves(d, path, id, was)
    ensures var (e, r) := DoRollback(cfg, d, path, id);
            !r.RollbackFailed? && BytesAt(e.files, path) == Recovered(was) &&
            forall p :: p != path ==> BytesAt(e.files, p) == BytesAt(d.files, p)
    ensures AllKept(cfg, d) ==> DoRollback(cfg, d, path, id).0.backups == d.backups
  {
    hide FindBackup, Rewritten, Decode, Sanitized;
  }

  /** The file an apply is about: the one named, or that of its preview. */
  function AppliedPath(d: Disk, path: string, id: Option<nat>): string
  {
    if id.None? then path
    else match FindPreview(d.pending, id.value) case None => path case Some(p) => p.path
  }

  lemma LoadFinds(cfg: Config, d: Disk, id: nat)
    ensures Load(cfg, d, id).1.Loaded? ==> FindPreview(d.pending, id) == Some(Load(cfg, d, id).1.preview)
  {
  }

  /** The disk a successful apply leaves. */
  lemma ApplyWrites(cfg: Config, d: Disk, path: string, content: string, base: Base, id: Option<nat>)
    returns (text: string, s: FileState, via: Option<Preview>)
    requires !DoApply(cfg, d, path, content, base, id).1.ApplyFailed?
    ensures cfg.verdict(AppliedPath(d, path, id)) == Allowed && ReadState(cfg, d.files, AppliedPath(d, path, id)) == Some(s)
    ensures var (e, r) := DoApply(cfg, d, path, content, base, id);
            e == Written(cfg, Tick(cfg, d), AppliedPath(d, path, id), text, s, via) && r.backupId == e.clock
  {
    hide Written, ReadState, Load, FindPreview;
    var t, q := Tick(cfg, d), AppliedPath(d, path, id);
    s := ReadState(cfg, t.files, q).GetOr(FileState(false, "", "", "", PLAIN));
    if id.None? {
      text, via := content, None;
    } else {
      LoadedWrites(cfg, d, Apply(path, content, base, id));
      LoadFinds(cfg, t, id.value);
      var loaded := Load(cfg, t, id.value).1;
      text, via := loaded.text, Some(loaded.preview);
    }
    WrittenClock(cfg, t, q, text, s, via);
  }

  lemma WrittenClock(cfg: Config, d: Disk, path: string, content: string, s: FileState, via: Option<Preview>)
    ensures Written(cfg, d, path, content, s, via).clock == d.clock
    ensures Written(cfg, d, path, content, s, via).files == d.files[path := File(Encode(content, s.format), d.clock)]
  {
  }

  /** Rolling an apply back at once, with or without a preview: a file that did not exist is gone
      again, every other file is as it was, and a file that existed has its old bytes again exactly
      when they were canonical. */
  lemma RollbackInvertsApply(cfg: Config, d: Disk, path: string, content: string, base: Base, id: Option<nat>)
    requires !DoApply(cfg, d, path, content, base, id).1.ApplyFailed?
    ensures var (e, r) := DoApply(cfg, d, path, content, base, id);
            var q := AppliedPath(d, path, id);
            var f := DoRollback(cfg, e, q, r.backupId).0;
            (q !in d.files ==> f.files == d.files) &&
            (forall p :: p != q ==> BytesAt(f.files, p) == BytesAt(d.files, p)) &&
            (q in d.files ==>
              (BytesAt(f.files, q) == BytesAt(d.files, q) <==> CanonicalFile(d.files[q].bytes)))
  {
    hide ReadState, CanonicalFile, Rewritten, Written, DoApply, DoRollback, Saves, Tick, AppliedPath;
    var (e, r) := DoApply(cfg, d, path, content, base, id);
    var q := AppliedPath(d, path, id);
    var text, s, via := ApplyWrites(cfg, d, path, content, base, id);
    var t := Tick(cfg, d);
    TickKeepsFiles(cfg, d);
    WrittenSaves(cfg, t, q, text, s, via);
    WrittenClock(cfg, t, q, text, s, via);
    RollbackRestores(cfg, e, q, r.backupId, BytesAt(d.files, q));
    if q in d.files {
      RewrittenIs(d.files[q].bytes);
    } else {
      RemovedAgain(cfg, e, d.files, q, r.backupId);
    }
  }

  lemma RemovedAgain(cfg: Config, e: Disk, files: map<string, File>, path: string, id: nat)
    requires path !in files && e.files.Keys == files.Keys + {path} && (forall p :: p in files ==> e.files[p] == files[p])
    requires cfg.verdict(path) == Allowed && Saves(e, path, id, None)
    ensures DoRollback(cfg, e, path, id).0.files == files
  {
    hide FindBackup, Sanitized, Decode;
    assert e.files - {path} == files;
  }

  // ----- Applying without a preview ------------------------------------------------------

  /** A direct apply writes exactly when the path is allowed, what is there is text, and every part of
      the base that is given is still what the disk shows; it then changes this one file, keeping its
      layout, and has its old content backed up.  Else it changes no file and no backup. */
  lemma DirectApply(cfg: Config, d: Disk, path: string, content: string, base: Base)
    ensures var (e, r) := DoApply(cfg, d, path, content, base, None);
            var s := ReadState(cfg, d.files, path);
            (!r.ApplyFailed? <==>
              cfg.verdict(path) == Allowed && s.Some? &&
              base.mtime in {"", s.value.mtime} && base.hash in {"", s.value.hash}) &&
            (r.ApplyFailed? ==> e.files == d.files && e.backups == d.backups) &&
            (!r.ApplyFailed? ==>
              BytesAt(e.files, path) == Some(Encode(content, s.value.format)) &&
              Saves(e, path, r.backupId, BytesAt(d.files, path)) &&
              forall p :: p != path ==> BytesAt(e.files, p) == BytesAt(d.files, p))
    ensures var r := DoApply(cfg, d, path, content, base, None).1; r.Applied? ==> '\0' !in content
  {
    hide ReadState, Written, Saves, BytesAt, Encode, ApplyOutcome;
    var t := Tick(cfg, d);
    var s := ReadState(cfg, t.files, path);
    if s.Some? {
      WrittenSaves(cfg, t, path, content, s.value, None);
      WrittenReads(cfg, t, path, content, s.value);
    }
  }

  lemma WrittenReads(cfg: Config, d: Disk, path: string, content: string, s: FileState)
    ensures var a := ApplyOutcome(cfg, Written(cfg, d, path, content, s, None), path);
            !a.ApplyFailed? && a.backupId == d.clock && (a.Applied? <==> '\0' !in content)
  {
    hide Encode, Decode, Newest;
    WrittenIsStable(content, s.format);
  }

  /** What a preview calls applicable is what a direct apply with the same base would then write. */
  lemma PreviewForetells(cfg: Config, d: Disk, path: string, content: string, base: Base)
    requires DoPreview(cfg, d, path, content, base).1.Previewed?
    ensures var (e, r) := DoPreview(cfg, d, path, content, base);
            r.applicable <==> !DoApply(cfg, e, path, content, base, None).1.ApplyFailed?
  {
    hide ReadState, DoApply, Evict;
    PreviewFewer(cfg, d, path, content, base);
    DirectApply(cfg, DoPreview(cfg, d, path, content, base).0, path, content, base);
  }

  /** A backup is filed under a name that paths can share, so a rollback does not always go back to
      the file that was backed up: the backup of a/b also rolls a_b back. */
  lemma SharedBackup(cfg: Config, d: Disk, id: nat, was: Option<string>)
    requires Saves(d, "a/b", id, was) && cfg.verdict("a_b") == Allowed
    ensures !DoRollback(cfg, d, "a_b", id).1.RollbackFailed? &&
            BytesAt(DoRollback(cfg, d, "a_b", id).0.files, "a_b") == Recovered(was)
  {
    hide FindBackup, DoRollback, BytesAt;
    assert Sanitized("a/b") == "a_b" == Sanitized("a_b");
    RollbackRestores(cfg, d, "a_b", id, was);
  }

  /** A character that a backup's name does not keep apart from others: an underline, and whatever is no letter,
      digit, dot or dash. */
  predicate Folded(c: char)
  {
    !('a' <= c <= 'z') && !('A' <= c <= 'Z') && !('0' <= c <= '9') && c != '.' && c != '-'
  }

  /** Which paths are filed under the same name: the empty one under the name root, and others if they differ in
      folded characters only. */
  lemma SameName(a: string, b: string)
    ensures a != "" && b != "" ==>
              (Sanitized(a) == Sanitized(b) <==>
               |a| == |b| && forall i :: 0 <= i < |a| ==> a[i] == b[i] || (Folded(a[i]) && Folded(b[i])))
    ensures Sanitized("") == "root"
  {
    if a != "" && b != "" && Sanitized(a) == Sanitized(b) {
      forall i | 0 <= i < |a| ensures a[i] == b[i] || (Folded(a[i]) && Folded(b[i])) {
        assert Sanitized(a)[i] == Sanitized(b)[i];
      }
    }
  }

  /** Two paths share their backups exactly when they sanitize to the same name. */
  lemma SharedExactly(d: Disk, path: string, other: string, id: nat, was: Option<string>)
    requires Saves(d, path, id, was)
    requires forall i, j :: 0 <= i < |d.backups| && 0 <= j < |d.backups| && d.backups[i].id == d.backups[j].id ==> i == j
    ensures Saves(d, other, id, was) <==> Sanitized(other) == Sanitized(path)
  {
    hide Sanitized, Recovered;
    var b := FindBackup(d.backups, id, Sanitized(path)).value;
    var c := FindBackup(d.backups, id, Sanitized(other));
    if c.Some? {
      var i :| 0 <= i < |d.backups| && d.backups[i] == b;
      var j :| 0 <= j < |d.backups| && d.backups[j] == c.value;
      assert i == j;
    }
  }

  // ----- Many rollbacks ------------------------------------------------------------------

  datatype Target = Target(path: string, id: nat)

  function RollbackAll(cfg: Config, d: Disk, order: seq<Target>): Disk
  {
    if order == [] then d
    else
      var last := order[|order| - 1];
      DoRollback(cfg, RollbackAll(cfg, d, order[..|order| - 1]), last.path, last.id).0
  }

  ghost predicate Touches(order: seq<Target>, path: string)
  {
    exists i :: 0 <= i < |order| && order[i].path == path
  }

  /** Rollbacks in any order, some perhaps repeated: each path rolled back has what its backup saves,
      every other path is untouched. */
  lemma {:induction false} RollbackAnyOrder(cfg: Config, d: Disk, order: seq<Target>, was: map<string, File>)
    requires AllKept(cfg, d)
    requires forall i :: 0 <= i < |order| ==>
               cfg.verdict(order[i].path) == Allowed && Saves(d, order[i].path, order[i].id, BytesAt(was, order[i].path))
    ensures var e := RollbackAll(cfg, d, order);
            e.backups == d.backups &&
            forall p :: BytesAt(e.files, p) == if Touches(order, p) then Recovered(BytesAt(was, p)) else BytesAt(d.files, p)
  {
    hide DoRollback, Sanitized, Rewritten, FindBackup;
    if order != [] {
      var front, last := order[..|order| - 1], order[|order| - 1];
      RollbackAnyOrder(cfg, d, front, was);
      var e := RollbackAll(cfg, d, front);
      SameBackupsSave(d, e, last.path, last.id, BytesAt(was, last.path));
      RollbackRestores(cfg, e, last.path, last.id, BytesAt(was, last.path));
      forall p ensures Touches(order, p) <==> Touches(front, p) || p == last.path {
        TouchesSnoc(front, last, p);
      }
    }
  }

  lemma TouchesSnoc(front: seq<Target>, last: Target, p: string)
    ensures Touches(front + [last], p) <==> Touches(front, p) || p == last.path
  {
    var all := front + [last];
    if Touches(front, p) {
      var i :| 0 <= i < |front| && front[i].path == p;
      assert all[i].path == p;
    }
    assert all[|front|].path == last.path;
  }

  lemma SameBackupsSave(d: Disk, e: Disk, path: string, id: nat, was: Option<string>)
    requires d.backups == e.backups && Saves(d, path, id, was)
    ensures Saves(e, path, id, was)
  {
  }

  /** A file that a rollback does not restore to the byte. */
  lemma MixedFileLost()
    ensures Rewritten("a\r\nb\n") == "a\r\nb\r\n" && !CanonicalFile("a\r\nb\n")
  {
    hide Decode, Encode, CanonicalFile;
    MixedEndsLost();
    RewrittenIs("a\r\nb\n");
    assert |"a\r\nb\n"| != |"a\r\nb\r\n"|;
  }

  // ----- What the calls report -----------------------------------------------------------

  /** What is reported of a file that was written: when, and the hash of its text. */
  ghost predicate Reports(cfg: Config, files: map<string, File>, path: string, mtime: string, hash: string)
  {
    path in files && TextAt(files, path).Some? && mtime == cfg.stamp(files[path].ticks) && hash == cfg.hash(TextAt(files, path).value)
  }

  /** The file has been written with the content, in the layout it had: reported by its new time and hash, or
      as binary if the content holds a NUL. */
  ghost predicate WroteContent(cfg: Config, d: Disk, path: string, content: string, e: Disk, r: ApplyResult)
  {
    path in e.files && e.files[path].ticks == e.clock && ReadState(cfg, d.files, path).Some? &&
    e.files[path].bytes == Encode(content, ReadState(cfg, d.files, path).value.format) &&
    (r == WroteBinary(e.clock) <==> '\0' in content) &&
    ('\0' !in content ==> r.Applied? && r.backupId == e.clock && Reports(cfg, e.files, path, r.mtime, r.hash))
  }

  lemma WrittenReports(cfg: Config, d: Disk, path: string, content: string, s: FileState, via: Option<Preview>)
    requires ReadState(cfg, d.files, path) == Some(s)
    ensures var e := Written(cfg, d, path, content, s, via); WroteContent(cfg, d, path, content, e, ApplyOutcome(cfg, e, path))
  {
    hide Written, Encode, Decode;
    WrittenClock(cfg, d, path, content, s, via);
    WrittenIsStable(content, s.format);
  }

  /** The base a file is on, as the calls compare it. */
  predicate OnBase(cfg: Config, files: map<string, File>, path: string, mtime: string, hash: string)
  {
    TextAt(files, path).Some? && mtime in {"", StampAt(cfg, files, path)} && hash in {"", cfg.hash(TextAt(files, path).value)}
  }

  /** The answer of a direct apply, in full: why it is refused, or that it has written. */
  lemma DirectAnswers(cfg: Config, d: Disk, path: string, content: string, base: Base)
    ensures var (e, r) := DoApply(cfg, d, path, content, base, None);
            if cfg.verdict(path) == Outside then r == ApplyFailed(OutsideWorkspace)
            else if cfg.verdict(path) == Denied then r == ApplyFailed(DeniedByPolicy)
            else if TextAt(d.files, path).None? then r == ApplyFailed(BinaryFile)
            else if !OnBase(cfg, d.files, path, base.mtime, base.hash) then r == ApplyFailed(PatchConflict)
            else WroteContent(cfg, d, path, content, e, r)
  {
    hide Written, ApplyOutcome, Decode, WroteContent;
    var t := Tick(cfg, d);
    var s := ReadState(cfg, t.files, path);
    if s.Some? {
      WrittenReports(cfg, t, path, content, s.value, None);
      SameFilesWrote(cfg, t, d, path, content, Written(cfg, t, path, content, s.value, None));
    }
  }

  lemma SameFilesWrote(cfg: Config, t: Disk, d: Disk, path: string, content: string, e: Disk)
    requires t.files == d.files
    ensures forall r :: WroteContent(cfg, t, path, content, e, r) <==> WroteContent(cfg, d, path, content, e, r)
  {
    hide ReadState, Encode, Decode;
  }

  /** The answer of an apply through a preview that can be loaded, in full.  Arguments that are given must be those
      of the preview: the path, a content of the same hash, the base.  What is written is the content of the
      preview, and only if the file is still exactly as it was previewed. */
  lemma PreviewedAnswers(cfg: Config, d: Disk, path: string, content: string, base: Base, p: Preview, text: string)
    requires Load(cfg, Tick(cfg, d), p.id) == (Tick(cfg, d), Loaded(p, text))
    ensures var (e, r) := DoApply(cfg, d, path, content, base, Some(p.id));
            if path !in {"", p.path} then r == ApplyFailed(PathMismatch)
            else if content != "" && cfg.hash(content) != cfg.hash(text) then r == ApplyFailed(ContentMismatch)
            else if base.mtime !in {"", p.mtime} || base.hash !in {"", p.hash} then r == ApplyFailed(BaseMismatch)
            else if cfg.verdict(p.path) == Outside then r == ApplyFailed(OutsideWorkspace)
            else if cfg.verdict(p.path) == Denied then r == ApplyFailed(DeniedByPolicy)
            else if TextAt(d.files, p.path).None? then r == ApplyFailed(BinaryFile)
            else if StampAt(cfg, d.files, p.path) != p.mtime || cfg.hash(TextAt(d.files, p.path).value) != p.hash
            then r == ApplyFailed(PatchConflict)
            else WroteContent(cfg, d, p.path, text, e, r)
  {
    hide Written, ApplyOutcome, Decode, WroteContent, Load;
    var t := Tick(cfg, d);
    LoadChecks(cfg, t, p.id);
    var s := ReadState(cfg, t.files, p.path);
    if s.Some? {
      WrittenReports(cfg, t, p.path, text, s.value, Some(p));
      SameFilesWrote(cfg, t, d, p.path, text, Written(cfg, t, p.path, text, s.value, Some(p)));
    }
  }

  lemma LoadChecks(cfg: Config, d: Disk, id: nat)
    ensures Load(cfg, d, id).1.Loaded? ==> cfg.hash(Load(cfg, d, id).1.text) == Load(cfg, d, id).1.preview.newHash
  {
  }

  /** The answer of a rollback, in full; what it restores is said by `RollbackRestores`.  It keeps no more
      backups than the retention allows. */
  lemma RollbackAnswers(cfg: Config, d: Disk, path: string, id: nat)
    ensures var (e, r) := DoRollback(cfg, d, path, id);
            if cfg.verdict(path) == Outside then r == RollbackFailed(OutsideWorkspace) && e.files == d.files
            else if cfg.verdict(path) == Denied then r == RollbackFailed(DeniedByPolicy) && e.files == d.files
            else if FindBackup(d.backups, id, Sanitized(path)).None? then r == RollbackFailed(BackupNotFound) && e.files == d.files
            else if path !in e.files then r == RolledBack("", cfg.hash(""))
            else if TextAt(e.files, path).None? then r == RestoredBinary
            else r.RolledBack? && Reports(cfg, e.files, path, r.mtime, r.hash)
    ensures var (e, r) := DoRollback(cfg, d, path, id);
            e.backups == if r.RollbackFailed? then d.backups else Newest(d.backups, cfg.backupKeep)
  {
    hide Decode, FindBackup, Sanitized;
  }

  /** Calls can be chained: the time and hash that an apply reports are a base the next call accepts. */
  lemma ReportIsBase(cfg: Config, d: Disk, path: string, content: string, base: Base, next: string)
    requires DoApply(cfg, d, path, content, base, None).1.Applied?
    ensures var (e, r) := DoApply(cfg, d, path, content, base, None);
            !DoApply(cfg, e, path, next, Base(r.mtime, r.hash), None).1.ApplyFailed?
  {
    hide DoApply, Encode, Decode, ReadState;
    var (e, r) := DoApply(cfg, d, path, content, base, None);
    DirectAnswers(cfg, d, path, content, base);
    DirectAnswers(cfg, e, path, next, Base(r.mtime, r.hash));
  }

  /** An apply that writes keeps no more backups, and through a preview no more statuses, than the retention
      allows. */
  lemma ApplyRetains(cfg: Config, d: Disk, path: string, content: string, base: Base, id: Option<nat>)
    requires !DoApply(cfg, d, path, content, base, id).1.ApplyFailed?
    ensures var e := DoApply(cfg, d, path, content, base, id).0;
            (cfg.backupKeep > 0 ==> |e.backups| <= cfg.backupKeep) &&
            (id.Some? && cfg.statusKeep > 0 ==> |e.statuses| <= cfg.statusKeep)
  {
    hide DoApply, ReadState, SetStatus, Encode;
    var text, s, via := ApplyWrites(cfg, d, path, content, base, id);
    if id.Some? { ThroughPreview(cfg, d, path, content, base, id.value); }
  }

  lemma ThroughPreview(cfg: Config, d: Disk, path: string, content: string, base: Base, id: nat)
    requires !DoApply(cfg, d, path, content, base, Some(id)).1.ApplyFailed?
    ensures cfg.statusKeep > 0 ==> |DoApply(cfg, d, path, content, base, Some(id)).0.statuses| <= cfg.statusKeep
  {
    hide Load, ReadState, SetStatus, Encode, Decode;
  }
}

/** Previewing, applying and rolling back single-file patches (patch_service.cpp).

    The store's directories are lists in writing order, oldest first: write times only grow, so the
    listings that the code sorts newest first are these lists read backwards.  Ids are readings of
    the clock, which moves on with every call. */
module PatchStore {
  import opened Text
  import opened Encoding
  import opened Diff

  datatype Verdict = Outside | Denied | Allowed

  datatype File = File(bytes: string, ticks: nat)

  /** What the code asks of its surroundings: the path policy, the content hash, how a write time is
      shown by this layer and by the session layer, how much time passes before a call, and the
      retention settings. */
  datatype Config = Config(
    verdict: string -> Verdict, hash: string -> string, stamp: nat -> string, tickText: nat -> string,
    pace: nat -> nat, previewKeep: nat, statusKeep: nat, backupKeep: nat, ttl: nat)

  datatype Base = Base(mtime: string, hash: string)

  const NO_BASE := Base("", "")

  datatype FileState = FileState(present: bool, mtime: string, hash: string, text: string, format: Format)

  /** A pending preview: its metadata file, and its content file unless that is gone. */
  datatype Preview = Preview(
    id: nat, path: string, mtime: string, hash: string, newHash: string, createdMs: nat,
    intact: bool, content: Option<string>)

  datatype Fate = WasApplied | WasExpired | WasEvicted | WasInvalid

  datatype Status = Status(id: nat, fate: Fate)

  datatype Backup = Backup(id: nat, name: string, existed: bool, bytes: string)

  datatype Disk = Disk(
    files: map<string, File>, pending: seq<Preview>, statuses: seq<Status>, backups: seq<Backup>, clock: nat)

  datatype Error =
    OutsideWorkspace | DeniedByPolicy | BinaryFile | PreviewNotFound | PreviewGone(fate: Fate) |
    MetadataCorrupted | ContentMissing | ContentHashMismatch |
    PathMismatch | ContentMismatch | BaseMismatch | PatchConflict | BackupNotFound

  datatype PreviewResult =
    PreviewFailed(error: Error) |
    Previewed(id: nat, applicable: bool, mtime: string, hash: string, newHash: string, diff: string)

  /** `WroteBinary`: the file was written, but what was written reads as binary. */
  datatype ApplyResult = ApplyFailed(error: Error) | Applied(backupId: nat, mtime: string, hash: string) | WroteBinary(backupId: nat)

  datatype RollbackResult = RollbackFailed(error: Error) | RolledBack(mtime: string, hash: string) | RestoredBinary

  // ----- Reading -------------------------------------------------------------------------

  function Tick(cfg: Config, d: Disk): Disk
  {
    d.(clock := d.clock + 1 + cfg.pace(d.clock))
  }

  /** read_text_file, a missing file allowed; None for a binary file */
  function ReadState(cfg: Config, files: map<string, File>, path: string): Option<FileState>
  {
    if path !in files then Some(FileState(false, "", cfg.hash(""), "", PLAIN))
    else
      match Decode(files[path].bytes)
      case None => None
      case Some(d) => Some(FileState(true, cfg.stamp(files[path].ticks), cfg.hash(d.text), d.text, d.format))
  }

  predicate BaseMatches(base: Base, state: FileState)
  {
    (base.mtime == "" || base.mtime == state.mtime) && (base.hash == "" || base.hash == state.hash)
  }

  predicate NameChar(c: char)
  {
    'a' <= c <= 'z' || 'A' <= c <= 'Z' || '0' <= c <= '9' || c == '.' || c == '-' || c == '_'
  }

  /** sanitize_rel_path */
  function Sanitized(path: string): string
  {
    if path == "" then "root"
    else seq(|path|, i requires 0 <= i < |path| => if NameChar(path[i]) then path[i] else '_')
  }

  // ----- Bounded lists -------------------------------------------------------------------

  /** What a clean-up leaves of a list; 0 keeps everything. */
  function Newest<T>(items: seq<T>, keep: nat): (rest: seq<T>)
    ensures |rest| <= |items| && (keep > 0 ==> |rest| <= keep)
  {
    if keep == 0 || |items| <= keep then items else items[|items| - keep..]
  }

  function WithoutPreview(pending: seq<Preview>, id: nat): seq<Preview>
  {
    if pending == [] then []
    else
      var front, last := WithoutPreview(pending[..|pending| - 1], id), pending[|pending| - 1];
      if last.id == id then front else front + [last]
  }

  function WithoutStatus(statuses: seq<Status>, id: nat): seq<Status>
  {
    if statuses == [] then []
    else
      var front, last := WithoutStatus(statuses[..|statuses| - 1], id), statuses[|statuses| - 1];
      if last.id == id then front else front + [last]
  }

  /** save_preview_status: a status written again becomes the newest. */
  function SetStatus(statuses: seq<Status>, id: nat, fate: Fate): seq<Status>
  {
    WithoutStatus(statuses, id) + [Status(id, fate)]
  }

  function FindPreview(pending: seq<Preview>, id: nat): (r: Option<Preview>)
    ensures r.Some? ==> r.value in pending && r.value.id == id
    ensures r.None? ==> forall i :: 0 <= i < |pending| ==> pending[i].id != id
  {
    if pending == [] then None
    else if pending[|pending| - 1].id == id then Some(pending[|pending| - 1])
    else FindPreview(pending[..|pending| - 1], id)
  }

  function FindStatus(statuses: seq<Status>, id: nat): Option<Fate>
  {
    if statuses == [] then None
    else if statuses[|statuses| - 1].id == id then Some(statuses[|statuses| - 1].fate)
    else FindStatus(statuses[..|statuses| - 1], id)
  }

  function FindBackup(backups: seq<Backup>, id: nat, name: string): (r: Option<Backup>)
    ensures r.Some? ==> r.value in backups && r.value.id == id && r.value.name == name
    ensures r.None? ==> forall i :: 0 <= i < |backups| ==> backups[i].id != id || backups[i].name != name
  {
    if backups == [] then None
    else if backups[|backups| - 1].id == id && backups[|backups| - 1].name == name then Some(backups[|backups| - 1])
    else FindBackup(backups[..|backups| - 1], id, name)
  }

  /** The statuses once every preview in `evicted` is marked, the newest first. */
  function MarkEvicted(statuses: seq<Status>, evicted: seq<Preview>): seq<Status>
    decreases |evicted|
  {
    if evicted == [] then statuses
    else MarkEvicted(SetStatus(statuses, evicted[|evicted| - 1].id, WasEvicted), evicted[..|evicted| - 1])
  }

  // ----- The operations as steps on the disk ---------------------------------------------

  /** cleanup_old_previews */
  function Evict(cfg: Config, d: Disk): Disk
  {
    if cfg.previewKeep == 0 || |d.pending| <= cfg.previewKeep then d
    else
      var cut := |d.pending| - cfg.previewKeep;
      d.(pending := d.pending[cut..],
         statuses := Newest(MarkEvicted(d.statuses, d.pending[..cut]), cfg.statusKeep))
  }

  /** patch_preview */
  function DoPreview(cfg: Config, was: Disk, path: string, content: string, base: Base): (Disk, PreviewResult)
  {
    var d := Tick(cfg, was);
    match cfg.verdict(path)
    case Outside => (d, PreviewFailed(OutsideWorkspace))
    case Denied => (d, PreviewFailed(DeniedByPolicy))
    case Allowed =>
      match ReadState(cfg, d.files, path)
      case None => (d, PreviewFailed(BinaryFile))
      case Some(s) =>
        var p := Preview(d.clock, path, s.mtime, s.hash, cfg.hash(content), d.clock / 1000, true, Some(content));
        (Evict(cfg, d.(pending := d.pending + [p], statuses := WithoutStatus(d.statuses, d.clock))),
         Previewed(d.clock, BaseMatches(base, s), s.mtime, s.hash, p.newHash, ContextDiff(path, s.text, content)))
  }

  datatype Loaded = LoadFailed(error: Error) | Loaded(preview: Preview, text: string)

  predicate Overdue(cfg: Config, p: Preview, clock: nat)
  {
    cfg.ttl > 0 && p.createdMs > 0 && clock / 1000 > p.createdMs + cfg.ttl
  }

  function Discard(d: Disk, id: nat, fate: Fate): Disk
  {
    d.(statuses := SetStatus(d.statuses, id, fate), pending := WithoutPreview(d.pending, id))
  }

  /** load_preview_record */
  function Load(cfg: Config, d: Disk, id: nat): (Disk, Loaded)
  {
    match FindPreview(d.pending, id)
    case None =>
      (d, LoadFailed(match FindStatus(d.statuses, id) case None => PreviewNotFound case Some(fate) => PreviewGone(fate)))
    case Some(p) =>
      if !p.intact then (Discard(d, id, WasInvalid), LoadFailed(MetadataCorrupted))
      else if Overdue(cfg, p, d.clock) then
        var gone := Discard(d, id, WasExpired);
        (gone.(statuses := Newest(gone.statuses, cfg.statusKeep)), LoadFailed(PreviewGone(WasExpired)))
      else if p.content.None? then (Discard(d, id, WasInvalid), LoadFailed(ContentMissing))
      else if cfg.hash(p.content.value) != p.newHash then (Discard(d, id, WasInvalid), LoadFailed(ContentHashMismatch))
      else (d, Loaded(p, p.content.value))
  }

  /** How the arguments of an apply fit its preview: the base to check, or the mismatch. */
  datatype Merged = Mismatch(error: Error) | Merged(base: Base)

  function Merge(cfg: Config, p: Preview, path: string, content: string, base: Base): Merged
  {
    if path != "" && path != p.path then Mismatch(PathMismatch)
    else if content != "" && cfg.hash(content) != p.newHash then Mismatch(ContentMismatch)
    else if base.mtime != "" && base.mtime != p.mtime then Mismatch(BaseMismatch)
    else if base.hash != "" && base.hash != p.hash then Mismatch(BaseMismatch)
    else Merged(Base(p.mtime, p.hash))
  }

  predicate StillAsPreviewed(via: Option<Preview>, s: FileState)
  {
    via.Some? ==> s.mtime == via.value.mtime && s.hash == via.value.hash
  }

  function BackupOf(path: string, s: FileState, clock: nat): Backup
  {
    Backup(clock, Sanitized(path), s.present, if s.present then Encode(s.text, s.format) else "")
  }

  /** The disk once a file is written: its backup, its new bytes, and the preview used up. */
  function Written(cfg: Config, d: Disk, path: string, content: string, s: FileState, via: Option<Preview>): Disk
  {
    var next := d.(backups := Newest(d.backups + [BackupOf(path, s, d.clock)], cfg.backupKeep),
                   files := d.files[path := File(Encode(content, s.format), d.clock)]);
    match via
    case None => next
    case Some(p) =>
      var used := Discard(next, p.id, WasApplied);
      used.(statuses := Newest(used.statuses, cfg.statusKeep))
  }

  function ApplyOutcome(cfg: Config, d: Disk, path: string): ApplyResult
  {
    match ReadState(cfg, d.files, path)
    case None => WroteBinary(d.clock)
    case Some(s) => Applied(d.clock, s.mtime, s.hash)
  }

  /** The part of patch_apply behind the preview checks. */
  function Write(cfg: Config, d: Disk, path: string, content: string, base: Base, via: Option<Preview>): (Disk, ApplyResult)
  {
    match cfg.verdict(path)
    case Outside => (d, ApplyFailed(OutsideWorkspace))
    case Denied => (d, ApplyFailed(DeniedByPolicy))
    case Allowed =>
      match ReadState(cfg, d.files, path)
      case None => (d, ApplyFailed(BinaryFile))
      case Some(s) =>
        if !BaseMatches(base, s) || !StillAsPreviewed(via, s) then (d, ApplyFailed(PatchConflict))
        else
          var next := Written(cfg, d, path, content, s, via);
          (next, ApplyOutcome(cfg, next, path))
  }

  /** patch_apply */
  function DoApply(cfg: Config, was: Disk, path: string, content: string, base: Base, id: Option<nat>): (Disk, ApplyResult)
  {
    var d := Tick(cfg, was);
    match id
    case None => Write(cfg, d, path, content, base, None)
    case Some(i) =>
      var (next, loaded) := Load(cfg, d, i);
      match loaded
      case LoadFailed(e) => (next, ApplyFailed(e))
      case Loaded(p, text) =>
        match Merge(cfg, p, path, content, base)
        case Mismatch(e) => (next, ApplyFailed(e))
        case Merged(b) => Write(cfg, next, p.path, text, b, Some(p))
  }

  function Restored(files: map<string, File>, path: string, b: Backup, clock: nat): map<string, File>
  {
    if b.existed then files[path := File(b.bytes, clock)] else files - {path}
  }

  /** patch_rollback */
  function DoRollback(cfg: Config, was: Disk, path: string, id: nat): (Disk, RollbackResult)
  {
    var d := Tick(cfg, was);
    match cfg.verdict(path)
    case Outside => (d, RollbackFailed(OutsideWorkspace))
    case Denied => (d, RollbackFailed(DeniedByPolicy))
    case Allowed =>
      match FindBackup(d.backups, id, Sanitized(path))
      case None => (d, RollbackFailed(BackupNotFound))
      case Some(b) =>
        var next := d.(files := Restored(d.files, path, b, d.clock), backups := Newest(d.backups, cfg.backupKeep));
        (next, match ReadState(cfg, next.files, path)
               case None => RestoredBinary
               case Some(s) => RolledBack(s.mtime, s.hash))
  }

  // ----- Well-kept disks -----------------------------------------------------------------

  ghost predicate RisingPreviews(pending: seq<Preview>, clock: nat)
  {
    (forall i, j :: 0 <= i < j < |pending| ==> pending[i].id < pending[j].id) &&
    forall i :: 0 <= i < |pending| ==> pending[i].id <= clock
  }

  ghost predicate RisingBackups(backups: seq<Backup>, clock: nat)
  {
    (forall i, j :: 0 <= i < j < |backups| ==> backups[i].id < backups[j].id) &&
    forall i :: 0 <= i < |backups| ==> backups[i].id <= clock
  }

  ghost predicate StatusesSettled(statuses: seq<Status>, pending: seq<Preview>, clock: nat)
  {
    (forall i, j :: 0 <= i < j < |statuses| ==> statuses[i].id != statuses[j].id) &&
    (forall i :: 0 <= i < |statuses| ==> statuses[i].id <= clock) &&
    forall i, k :: 0 <= i < |statuses| && 0 <= k < |pending| ==> statuses[i].id != pending[k].id
  }

  ghost predicate Sound(d: Disk)
  {
    RisingPreviews(d.pending, d.clock) && RisingBackups(d.backups, d.clock) &&
    StatusesSettled(d.statuses, d.pending, d.clock)
  }

  // ----- Removing by id ------------------------------------------------------------------

  lemma {:induction false} WithoutPreviewMembers(pending: seq<Preview>, id: nat)
    ensures forall p :: p in WithoutPreview(pending, id) <==> p in pending && p.id != id
  {
    if pending != [] {
      var front, last := pending[..|pending| - 1], pending[|pending| - 1];
      WithoutPreviewMembers(front, id);
      assert pending == front + [last];
    }
  }

  lemma {:induction false} WithoutPreviewConcat(a: seq<Preview>, b: seq<Preview>, id: nat)
    ensures WithoutPreview(a + b, id) == WithoutPreview(a, id) + WithoutPreview(b, id)
    decreases |b|
  {
    if b == [] {
      assert a + b == a;
    } else {
      assert (a + b)[..|a + b| - 1] == a + b[..|b| - 1];
      WithoutPreviewConcat(a, b[..|b| - 1], id);
    }
  }

  lemma {:induction false} WithoutAbsent(pending: seq<Preview>, id: nat)
    requires forall i :: 0 <= i < |pending| ==> pending[i].id != id
    ensures WithoutPreview(pending, id) == pending
  {
    if pending != [] {
      WithoutAbsent(pending[..|pending| - 1], id);
      assert pending == pending[..|pending| - 1] + [pending[|pending| - 1]];
    }
  }

  lemma WithoutSelf(p: Preview)
    ensures WithoutPreview([p], p.id) == []
  {
    assert [p][..0] == [];
  }

  lemma WithoutMiddle(a: seq<Preview>, x: Preview, b: seq<Preview>)
    requires forall i :: 0 <= i < |a| ==> a[i].id != x.id
    requires forall i :: 0 <= i < |b| ==> b[i].id != x.id
    ensures WithoutPreview(a + ([x] + b), x.id) == a + b
  {
    hide WithoutPreview;
    WithoutPreviewConcat(a, [x] + b, x.id);
    WithoutPreviewConcat([x], b, x.id);
    WithoutAbsent(a, x.id);
    WithoutAbsent(b, x.id);
    WithoutSelf(x);
    assert [] + b == b;
  }

  lemma OthersDiffer(pending: seq<Preview>, a: seq<Preview>, x: Preview, b: seq<Preview>, clock: nat)
    requires RisingPreviews(pending, clock) && pending == a + ([x] + b)
    ensures forall i :: 0 <= i < |a| ==> a[i].id != x.id
    ensures forall i :: 0 <= i < |b| ==> b[i].id != x.id
  {
    var k := |a|;
    assert pending[k] == x;
    forall i | 0 <= i < |a| ensures a[i].id != x.id {
      assert pending[i] == a[i];
    }
    forall i | 0 <= i < |b| ensures b[i].id != x.id {
      assert pending[k + 1 + i] == b[i];
    }
  }

  /** With rising ids, removing one preview by its id leaves all the others. */
  lemma WithoutOne(pending: seq<Preview>, k: nat, clock: nat)
    requires RisingPreviews(pending, clock) && k < |pending|
    ensures WithoutPreview(pending, pending[k].id) == pending[..k] + pending[k + 1..]
  {
    hide WithoutPreview, RisingPreviews;
    var a, x, b := pending[..k], pending[k], pending[k + 1..];
    assert pending == a + ([x] + b);
    OthersDiffer(pending, a, x, b, clock);
    WithoutMiddle(a, x, b);
  }

  // ----- The store -----------------------------------------------------------------------

  /** The loop of the clean-ups: of the items beyond the newest `keep`, each is removed, the newest of
      them first. */
  method RemoveOldest<T>(items: seq<T>, keep: nat) returns (rest: seq<T>)
    ensures rest == Newest(items, keep)
  {
    rest := items;
    if keep == 0 || |items| <= keep { return; }
    for i := keep to |items|
      invariant rest == items[..|items| - i] + items[|items| - keep..]
    {
      var k := |items| - 1 - i;
      rest := rest[..k] + rest[k + 1..];
    }
  }

  class PatchStore {
    const config: Config
    var files: map<string, File>
    var pending: seq<Preview>
    var statuses: seq<Status>
    var backups: seq<Backup>
    var clock: nat

    /** The disk this store stands for. */
    function Snap(): Disk
      reads this
    {
      Disk(files, pending, statuses, backups, clock)
    }

    ghost predicate Valid()
      reads this
    {
      Sound(Snap())
    }

    constructor (config: Config, files: map<string, File>, clock: nat)
      ensures Valid() && this.config == config && Snap() == Disk(files, [], [], [], clock)
    {
      this.config := config;
      this.files := files;
      this.pending, this.statuses, this.backups := [], [], [];
      this.clock := clock;
    }

    /** save_preview_status */
    method SavePreviewStatus(id: nat, fate: Fate)
      modifies this`statuses
      ensures statuses == SetStatus(old(statuses), id, fate)
    {
      statuses := WithoutStatus(statuses, id);
      statuses := statuses + [Status(id, fate)];
    }

    /** remove_preview_content_and_meta */
    method RemovePreview(id: nat)
      modifies this`pending
      ensures pending == WithoutPreview(old(pending), id)
    {
      pending := WithoutPreview(pending, id);
    }

    /** cleanup_old_preview_statuses */
    method CleanupStatuses()
      modifies this`statuses
      ensures statuses == Newest(old(statuses), config.statusKeep)
    {
      statuses := RemoveOldest(statuses, config.statusKeep);
    }

    /** cleanup_old_backups */
    method CleanupBackups()
      modifies this`backups
      ensures backups == Newest(old(backups), config.backupKeep)
    {
      backups := RemoveOldest(backups, config.backupKeep);
    }

    /** cleanup_old_previews */
    method CleanupPreviews()
      requires RisingPreviews(pending, clock)
      modifies this`pending, this`statuses
      ensures Snap() == Evict(config, old(Snap()))
    {
      hide SetStatus, WithoutPreview, MarkEvicted;
      var keep, metas := config.previewKeep, pending;
      if keep == 0 || |metas| <= keep { return; }
      assert metas[..|metas| - keep] + metas[|metas| - keep..] == metas;
      for i := keep to |metas|
        invariant pending == metas[..|metas| - i] + metas[|metas| - keep..]
        invariant MarkEvicted(statuses, metas[..|metas| - i]) == MarkEvicted(old(statuses), metas[..|metas| - keep])
      {
        var k := |metas| - 1 - i;
        RemovedOne(metas, pending, k, |metas| - keep, clock);
        MarkLast(statuses, metas[..|metas| - i]);
        assert metas[..|metas| - i][..k] == metas[..k];
        SavePreviewStatus(metas[k].id, WasEvicted);
        RemovePreview(metas[k].id);
      }
      MarkNone(statuses);
      assert metas[..0] + metas[|metas| - keep..] == metas[|metas| - keep..];
      CleanupStatuses();
    }

    method Wait()
      modifies this`clock
      ensures clock == old(clock) + 1 + config.pace(old(clock))
    {
      clock := clock + 1 + config.pace(clock);
    }

    /** patch_preview */
    method PatchPreview(path: string, content: string, base: Base) returns (r: PreviewResult)
      requires Valid()
      modifies this
      ensures (Snap(), r) == DoPreview(config, old(Snap()), path, content, base)
      ensures Valid()
    {
      hide ContextDiff, Decode, WithoutStatus, SetStatus, WithoutPreview, MarkEvicted, Evict;
      SoundAfterPreview(config, Snap(), path, content, base);
      Wait();
      var verdict := config.verdict(path);
      if verdict == Outside { return PreviewFailed(OutsideWorkspace); }
      if verdict == Denied { return PreviewFailed(DeniedByPolicy); }
      var state := ReadState(config, files, path);
      if state.None? { return PreviewFailed(BinaryFile); }
      var s := state.value;
      var diff := MakeContextDiff(path, s.text, content);
      r := Previewed(clock, BaseMatches(base, s), s.mtime, s.hash, config.hash(content), diff);
      ghost var now := Snap();
      AddedSound(old(Snap()), now, Preview(r.id, path, s.mtime, s.hash, r.newHash, clock / 1000, true, Some(content)));
      statuses := WithoutStatus(statuses, r.id);
      pending := pending + [Preview(r.id, path, s.mtime, s.hash, r.newHash, clock / 1000, true, Some(content))];
      CleanupPreviews();
    }

    /** load_preview_record */
    method LoadPreview(id: nat) returns (loaded: Loaded)
      modifies this`pending, this`statuses
      ensures (Snap(), loaded) == Load(config, old(Snap()), id)
    {
      hide SetStatus, WithoutPreview;
      var rec := FindPreview(pending, id);
      if rec.None? {
        var fate := FindStatus(statuses, id);
        if fate.Some? { return LoadFailed(PreviewGone(fate.value)); }
        return LoadFailed(PreviewNotFound);
      }
      var p := rec.value;
      if !p.intact {
        SavePreviewStatus(id, WasInvalid);
        RemovePreview(id);
        return LoadFailed(MetadataCorrupted);
      }
      if config.ttl > 0 && p.createdMs > 0 && clock / 1000 > p.createdMs + config.ttl {
        SavePreviewStatus(id, WasExpired);
        RemovePreview(id);
        CleanupStatuses();
        return LoadFailed(PreviewGone(WasExpired));
      }
      if p.content.None? {
        SavePreviewStatus(id, WasInvalid);
        RemovePreview(id);
        return LoadFailed(ContentMissing);
      }
      if config.hash(p.content.value) != p.newHash {
        SavePreviewStatus(id, WasInvalid);
        RemovePreview(id);
        return LoadFailed(ContentHashMismatch);
      }
      return Loaded(p, p.content.value);
    }

    /** patch_apply */
    method PatchApply(path: string, content: string, base: Base, id: Option<nat>) returns (r: ApplyResult)
      requires Valid()
      modifies this
      ensures (Snap(), r) == DoApply(config, old(Snap()), path, content, base, id)
      ensures Valid()
    {
      hide Decode, SetStatus, WithoutPreview, Load, Encode, Sanitized, Newest;
      SoundAfterApply(config, Snap(), path, content, base, id);
      Wait();
      var target, text, expected := path, content, base;
      var via: Option<Preview> := None;
      if id.Some? {
        var loaded := LoadPreview(id.value);
        if loaded.LoadFailed? { return ApplyFailed(loaded.error); }
        var p := loaded.preview;
        text := loaded.text;
        if target != "" && target != p.path { return ApplyFailed(PathMismatch); }
        target := p.path;
        if content != "" && config.hash(content) != p.newHash { return ApplyFailed(ContentMismatch); }
        if expected.mtime == "" {
          expected := expected.(mtime := p.mtime);
        } else if expected.mtime != p.mtime {
          return ApplyFailed(BaseMismatch);
        }
        if expected.hash == "" {
          expected := expected.(hash := p.hash);
        } else if expected.hash != p.hash {
          return ApplyFailed(BaseMismatch);
        }
        via := Some(p);
      }
      r := WriteFile(target, text, expected, via);
    }

    /** patch_apply, behind the preview checks */
    method WriteFile(path: string, content: string, base: Base, via: Option<Preview>) returns (r: ApplyResult)
      modifies this
      ensures (Snap(), r) == Write(config, old(Snap()), path, content, base, via)
    {
      hide Decode, SetStatus, WithoutPreview, Encode, Sanitized, Newest;
      var verdict := config.verdict(path);
      if verdict == Outside { return ApplyFailed(OutsideWorkspace); }
      if verdict == Denied { return ApplyFailed(DeniedByPolicy); }
      var state := ReadState(config, files, path);
      if state.None? { return ApplyFailed(BinaryFile); }
      var s := state.value;
      if !BaseMatches(base, s) { return ApplyFailed(PatchConflict); }
      if via.Some? && (s.mtime != via.value.mtime || s.hash != via.value.hash) { return ApplyFailed(PatchConflict); }
      var saved := "";
      if s.present { saved := EncodeText(s.text, s.format); }
      backups := backups + [Backup(clock, Sanitized(path), s.present, saved)];
      var bytes := EncodeText(content, s.format);
      files := files[path := File(bytes, clock)];
      CleanupBackups();
      if via.Some? {
        SavePreviewStatus(via.value.id, WasApplied);
        RemovePreview(via.value.id);
        CleanupStatuses();
      }
      var now := ReadState(config, files, path);
      r := if now.Some? then Applied(clock, now.value.mtime, now.value.hash) else WroteBinary(clock);
    }

    /** patch_rollback */
    method PatchRollback(path: string, id: nat) returns (r: RollbackResult)
      requires Valid()
      modifies this
      ensures (Snap(), r) == DoRollback(config, old(Snap()), path, id)
      ensures Valid()
    {
      hide Decode, Sanitized;
      SoundAfterRollback(config, Snap(), path, id);
      Wait();
      var verdict := config.verdict(path);
      if verdict == Outside { return RollbackFailed(OutsideWorkspace); }
      if verdict == Denied { return RollbackFailed(DeniedByPolicy); }
      var backup := FindBackup(backups, id, Sanitized(path));
      if backup.None? { return RollbackFailed(BackupNotFound); }
      if !backup.value.existed {
        files := files - {path};
      } else {
        files := files[path := File(backup.value.bytes, clock)];
      }
      CleanupBackups();
      var now := ReadState(config, files, path);
      r := if now.Some? then RolledBack(now.value.mtime, now.value.hash) else RestoredBinary;
    }
  }

  lemma RemovedOne(metas: seq<Preview>, pending: seq<Preview>, k: nat, cut: nat, clock: nat)
    requires RisingPreviews(metas, clock) && k < cut <= |metas|
    requires pending == metas[..k + 1] + metas[cut..]
    ensures WithoutPreview(pending, metas[k].id) == metas[..k] + metas[cut..]
  {
    hide WithoutPreview;
    assert RisingPreviews(pending, clock);
    WithoutOne(pending, k, clock);
    assert pending[..k] == metas[..k] && pending[k + 1..] == metas[cut..];
  }

  lemma MarkLast(statuses: seq<Status>, evicted: seq<Preview>)
    requires evicted != []
    ensures MarkEvicted(statuses, evicted) ==
            MarkEvicted(SetStatus(statuses, evicted[|evicted| - 1].id, WasEvicted), evicted[..|evicted| - 1])
  {
  }

  lemma MarkNone(statuses: seq<Status>)
    ensures MarkEvicted(statuses, []) == statuses
  {
  }

  // ----- Every operation keeps the disk sound --------------------------------------------

  lemma {:induction false} RisingWithout(pending: seq<Preview>, id: nat, clock: nat)
    requires RisingPreviews(pending, clock)
    ensures RisingPreviews(WithoutPreview(pending, id), clock)
  {
    if k :| 0 <= k < |pending| && pending[k].id == id {
      WithoutOne(pending, k, clock);
    } else {
      WithoutAbsent(pending, id);
    }
  }

  lemma {:induction false} WithoutStatusMembers(statuses: seq<Status>, id: nat)
    ensures forall s :: s in WithoutStatus(statuses, id) <==> s in statuses && s.id != id
  {
    if statuses != [] {
      var front, last := statuses[..|statuses| - 1], statuses[|statuses| - 1];
      WithoutStatusMembers(front, id);
      assert statuses == front + [last];
    }
  }

  ghost predicate UniqueStatuses(statuses: seq<Status>)
  {
    forall i, j :: 0 <= i < j < |statuses| ==> statuses[i].id != statuses[j].id
  }

  lemma {:induction false} WithoutStatusUnique(statuses: seq<Status>, id: nat)
    requires UniqueStatuses(statuses)
    ensures UniqueStatuses(WithoutStatus(statuses, id))
  {
    if statuses != [] {
      var front, last := statuses[..|statuses| - 1], statuses[|statuses| - 1];
      WithoutStatusUnique(front, id);
      WithoutStatusMembers(front, id);
      var w := WithoutStatus(front, id);
      forall i | 0 <= i < |w| ensures w[i].id != last.id {
        assert w[i] in w;
      }
    }
  }

  /** Statuses set for previews that leave the pending list stay settled. */
  lemma SetStatusSettled(statuses: seq<Status>, id: nat, fate: Fate, pending: seq<Preview>, left: seq<Preview>, clock: nat)
    requires StatusesSettled(statuses, pending, clock) && id <= clock
    requires forall p :: p in left ==> p in pending && p.id != id
    ensures StatusesSettled(SetStatus(statuses, id, fate), left, clock)
  {
    hide WithoutStatus;
    var w := WithoutStatus(statuses, id);
    WithoutStatusMembers(statuses, id);
    WithoutStatusUnique(statuses, id);
    forall i | 0 <= i < |w| ensures w[i] in statuses && w[i].id != id {
      assert w[i] in w;
    }
    forall i, k | 0 <= i < |w| && 0 <= k < |left| ensures w[i].id != left[k].id {
      assert left[k] in left && w[i] in statuses;
    }
  }

  lemma NewestSettled(statuses: seq<Status>, keep: nat, pending: seq<Preview>, clock: nat)
    requires StatusesSettled(statuses, pending, clock)
    ensures StatusesSettled(Newest(statuses, keep), pending, clock)
  {
  }

  lemma {:induction false} MarkEvictedSettled(statuses: seq<Status>, evicted: seq<Preview>, kept: seq<Preview>, clock: nat)
    requires RisingPreviews(evicted + kept, clock) && StatusesSettled(statuses, evicted + kept, clock)
    ensures StatusesSettled(MarkEvicted(statuses, evicted), kept, clock)
    decreases |evicted|
  {
    hide SetStatus;
    if evicted == [] {
      assert evicted + kept == kept;
    } else {
      var front, last := evicted[..|evicted| - 1], evicted[|evicted| - 1];
      var all := evicted + kept;
      assert all[|evicted| - 1] == last;
      forall p | p in front + kept ensures p in all && p.id != last.id {
        var i :| 0 <= i < |front + kept| && (front + kept)[i] == p;
        assert p == all[if i < |front| then i else i + 1];
      }
      SetStatusSettled(statuses, last.id, WasEvicted, all, front + kept, clock);
      assert all == front + [last] + kept;
      RisingMiddle(front, last, kept, clock);
      MarkEvictedSettled(SetStatus(statuses, last.id, WasEvicted), front, kept, clock);
    }
  }

  lemma RisingMiddle(a: seq<Preview>, x: Preview, b: seq<Preview>, clock: nat)
    requires RisingPreviews(a + [x] + b, clock)
    ensures RisingPreviews(a + b, clock)
  {
    var all := a + [x] + b;
    forall i | 0 <= i < |a + b| ensures (a + b)[i] == all[if i < |a| then i else i + 1] {
    }
  }

  lemma EvictSound(cfg: Config, d: Disk)
    requires Sound(d)
    ensures Sound(Evict(cfg, d))
  {
    hide MarkEvicted;
    if cfg.previewKeep > 0 && |d.pending| > cfg.previewKeep {
      var cut := |d.pending| - cfg.previewKeep;
      assert d.pending == d.pending[..cut] + d.pending[cut..];
      MarkEvictedSettled(d.statuses, d.pending[..cut], d.pending[cut..], d.clock);
      NewestSettled(MarkEvicted(d.statuses, d.pending[..cut]), cfg.statusKeep, d.pending[cut..], d.clock);
    }
  }

  lemma TickSound(cfg: Config, d: Disk)
    requires Sound(d)
    ensures Sound(Tick(cfg, d))
  {
  }

  lemma DiscardSound(d: Disk, id: nat, fate: Fate)
    requires Sound(d) && id <= d.clock
    ensures Sound(Discard(d, id, fate))
  {
    hide WithoutPreview, SetStatus;
    RisingWithout(d.pending, id, d.clock);
    WithoutPreviewMembers(d.pending, id);
    SetStatusSettled(d.statuses, id, fate, d.pending, WithoutPreview(d.pending, id), d.clock);
  }

  lemma SoundAfterPreview(cfg: Config, was: Disk, path: string, content: string, base: Base)
    requires Sound(was)
    ensures Sound(DoPreview(cfg, was, path, content, base).0)
  {
    hide Evict, ContextDiff, ReadState, WithoutStatus;
    var d := Tick(cfg, was);
    TickSound(cfg, was);
    var s := ReadState(cfg, d.files, path);
    if cfg.verdict(path) == Allowed && s.Some? {
      var p := Preview(d.clock, path, s.value.mtime, s.value.hash, cfg.hash(content), d.clock / 1000, true, Some(content));
      var next := d.(pending := d.pending + [p], statuses := WithoutStatus(d.statuses, d.clock));
      AddedSound(was, d, p);
      EvictSound(cfg, next);
    }
  }

  lemma AddedSound(was: Disk, d: Disk, p: Preview)
    requires Sound(was) && d == was.(clock := d.clock) && was.clock < d.clock == p.id
    ensures Sound(d.(pending := d.pending + [p], statuses := WithoutStatus(d.statuses, p.id)))
  {
    hide WithoutStatus;
    WithoutStatusMembers(d.statuses, p.id);
    WithoutStatusUnique(d.statuses, p.id);
    var w := WithoutStatus(d.statuses, p.id);
    forall i | 0 <= i < |w| ensures w[i] in d.statuses && w[i].id != p.id {
      assert w[i] in w;
    }
  }

  lemma LoadSound(cfg: Config, d: Disk, id: nat)
    requires Sound(d)
    ensures Sound(Load(cfg, d, id).0)
  {
    hide Discard, Newest;
    var p := FindPreview(d.pending, id);
    if p.Some? {
      DiscardSound(d, id, WasInvalid);
      DiscardSound(d, id, WasExpired);
      var gone := Discard(d, id, WasExpired);
      NewestSettled(gone.statuses, cfg.statusKeep, gone.pending, gone.clock);
    }
  }

  lemma WrittenSound(cfg: Config, was: Disk, d: Disk, path: string, content: string, s: FileState, via: Option<Preview>)
    requires Sound(d) && RisingBackups(d.backups, was.clock) && was.clock < d.clock
    requires via.Some? ==> via.value.id <= d.clock
    ensures Sound(Written(cfg, d, path, content, s, via))
  {
    hide Discard, Encode, Sanitized;
    var next := d.(backups := Newest(d.backups + [BackupOf(path, s, d.clock)], cfg.backupKeep),
                   files := d.files[path := File(Encode(content, s.format), d.clock)]);
    assert Sound(next);
    if via.Some? {
      DiscardSound(next, via.value.id, WasApplied);
      var used := Discard(next, via.value.id, WasApplied);
      NewestSettled(used.statuses, cfg.statusKeep, used.pending, used.clock);
    }
  }

  lemma WriteSound(cfg: Config, was: Disk, d: Disk, path: string, content: string, base: Base, via: Option<Preview>)
    requires Sound(d) && RisingBackups(d.backups, was.clock) && was.clock < d.clock
    requires via.Some? ==> via.value.id <= d.clock
    ensures Sound(Write(cfg, d, path, content, base, via).0)
  {
    hide Written, ReadState;
    var s := ReadState(cfg, d.files, path);
    if s.Some? { WrittenSound(cfg, was, d, path, content, s.value, via); }
  }

  lemma LoadKeeps(cfg: Config, d: Disk, id: nat)
    ensures var (next, loaded) := Load(cfg, d, id);
            next.files == d.files && next.backups == d.backups && next.clock == d.clock &&
            (loaded.Loaded? ==> next == d && loaded.preview in d.pending && loaded.preview.id == id &&
                                loaded.preview.content == Some(loaded.text) && cfg.hash(loaded.text) == loaded.preview.newHash)
  {
  }

  lemma SoundAfterApply(cfg: Config, was: Disk, path: string, content: string, base: Base, id: Option<nat>)
    requires Sound(was)
    ensures Sound(DoApply(cfg, was, path, content, base, id).0)
  {
    hide Load, Write, Merge;
    var d := Tick(cfg, was);
    TickSound(cfg, was);
    if id.None? {
      WriteSound(cfg, was, d, path, content, base, None);
    } else {
      LoadSound(cfg, d, id.value);
      LoadKeeps(cfg, d, id.value);
      var (next, loaded) := Load(cfg, d, id.value);
      if loaded.Loaded? {
        var m := Merge(cfg, loaded.preview, path, content, base);
        if m.Merged? { WriteSound(cfg, was, next, loaded.preview.path, loaded.text, m.base, Some(loaded.preview)); }
      }
    }
  }

  lemma SoundAfterRollback(cfg: Config, was: Disk, path: string, id: nat)
    requires Sound(was)
    ensures Sound(DoRollback(cfg, was, path, id).0)
  {
    hide ReadState, Sanitized;
    TickSound(cfg, was);
  }
}

/** The life of a preview over every run of the patch layer, with other programs editing files and
    damaging previews in between (patch_service.cpp). */
module StoreRuns {
  import opened Text
  import opened Encoding
  import opened Diff
  import opened PatchStore

  datatype Action =
    MakePreview(path: string, content: string, base: Base) |
    Apply(path: string, content: string, base: Base, id: Option<nat>) |
    Rollback(path: string, backup: nat) |
    Edit(path: string, bytes: Option<string>) |
    Damage(preview: nat, intact: bool, left: Option<string>)

  /** The previews with one of them tampered with. */
  function Damaged(pending: seq<Preview>, id: nat, intact: bool, content: Option<string>): (out: seq<Preview>)
    ensures |out| == |pending|
    ensures forall i :: 0 <= i < |pending| ==>
              out[i] == if pending[i].id == id then pending[i].(intact := intact, content := content) else pending[i]
  {
    seq(|pending|, i requires 0 <= i < |pending| =>
      if pending[i].id == id then pending[i].(intact := intact, content := content) else pending[i])
  }

  function Step(cfg: Config, d: Disk, a: Action): Disk
  {
    match a
    case MakePreview(path, content, base) => DoPreview(cfg, d, path, content, base).0
    case Apply(path, content, base, id) => DoApply(cfg, d, path, content, base, id).0
    case Rollback(path, id) => DoRollback(cfg, d, path, id).0
    case Edit(path, bytes) =>
      var t := Tick(cfg, d);
      t.(files := if bytes.Some? then t.files[path := File(bytes.value, t.clock)] else t.files - {path})
    case Damage(id, intact, content) => Tick(cfg, d).(pending := Damaged(d.pending, id, intact, content))
  }

  function After(cfg: Config, d: Disk, actions: seq<Action>): Disk
  {
    if actions == [] then d
    else Step(cfg, After(cfg, d, actions[..|actions| - 1]), actions[|actions| - 1])
  }

  predicate IsPending(d: Disk, id: nat) { FindPreview(d.pending, id).Some? }

  /** The action is an apply that wrote its file. */
  predicate Wrote(cfg: Config, d: Disk, a: Action)
  {
    a.Apply? && !DoApply(cfg, d, a.path, a.content, a.base, a.id).1.ApplyFailed?
  }

  // ----- What every step keeps -----------------------------------------------------------

  predicate SameRecord(p: Preview, q: Preview)
  {
    p == q.(intact := p.intact, content := p.content)
  }

  /** Every preview pending later on was pending already, or got an id after `d`. */
  ghost predicate Follows(d: Disk, e: Disk)
  {
    d.clock <= e.clock &&
    forall p :: p in e.pending && p.id <= d.clock ==> exists q :: q in d.pending && SameRecord(p, q)
  }

  ghost predicate Unspoilt(d: Disk, e: Disk)
  {
    forall p :: p in e.pending && p.id <= d.clock ==> p in d.pending
  }

  lemma FollowsSelf(d: Disk)
    ensures Follows(d, d) && Unspoilt(d, d)
  {
    assert forall p :: SameRecord(p, p);
  }

  lemma FollowsTransitive(d: Disk, e: Disk, f: Disk)
    requires Follows(d, e) && Follows(e, f)
    ensures Follows(d, f)
    ensures Unspoilt(d, e) && Unspoilt(e, f) ==> Unspoilt(d, f)
  {
    forall p | p in f.pending && p.id <= d.clock ensures exists q :: q in d.pending && SameRecord(p, q) {
      var r :| r in e.pending && SameRecord(p, r);
      var q :| q in d.pending && SameRecord(r, q);
      assert SameRecord(p, q);
    }
  }

  /** Nothing but the new preview joins the pending ones. */
  lemma OnlyFewer(d: Disk, e: Disk)
    requires d.clock <= e.clock && forall p :: p in e.pending ==> p in d.pending || p.id > d.clock
    ensures Follows(d, e) && Unspoilt(d, e)
  {
    assert forall p :: SameRecord(p, p);
  }

  lemma EvictFewer(cfg: Config, d: Disk)
    ensures forall p :: p in Evict(cfg, d).pending ==> p in d.pending
    ensures Evict(cfg, d).clock == d.clock && Evict(cfg, d).files == d.files
  {
    hide MarkEvicted;
  }

  lemma PreviewFewer(cfg: Config, d: Disk, path: string, content: string, base: Base)
    ensures var e := DoPreview(cfg, d, path, content, base).0;
            e.clock > d.clock && e.files == d.files && forall p :: p in e.pending ==> p in d.pending || p.id > d.clock
  {
    hide Evict, ContextDiff, ReadState, WithoutStatus;
    var t := Tick(cfg, d);
    var s := ReadState(cfg, t.files, path);
    if s.Some? {
      var p := Preview(t.clock, path, s.value.mtime, s.value.hash, cfg.hash(content), t.clock / 1000, true, Some(content));
      EvictFewer(cfg, t.(pending := t.pending + [p], statuses := WithoutStatus(t.statuses, t.clock)));
    }
  }

  lemma LoadFewer(cfg: Config, d: Disk, id: nat)
    ensures forall p :: p in Load(cfg, d, id).0.pending ==> p in d.pending
    ensures Load(cfg, d, id).0.clock == d.clock
  {
    hide SetStatus, WithoutPreview;
    WithoutPreviewMembers(d.pending, id);
  }

  lemma WriteFewer(cfg: Config, d: Disk, path: string, content: string, base: Base, via: Option<Preview>)
    ensures forall p :: p in Write(cfg, d, path, content, base, via).0.pending ==> p in d.pending
    ensures Write(cfg, d, path, content, base, via).0.clock == d.clock
  {
    hide SetStatus, WithoutPreview, ReadState, Encode;
    if via.Some? { WithoutPreviewMembers(d.pending, via.value.id); }
  }

  lemma ApplyFewer(cfg: Config, d: Disk, path: string, content: string, base: Base, id: Option<nat>)
    ensures var e := DoApply(cfg, d, path, content, base, id).0;
            e.clock > d.clock && forall p :: p in e.pending ==> p in d.pending
  {
    hide Load, Write, Merge;
    var t := Tick(cfg, d);
    if id.None? {
      WriteFewer(cfg, t, path, content, base, None);
    } else {
      LoadFewer(cfg, t, id.value);
      var (next, loaded) := Load(cfg, t, id.value);
      if loaded.Loaded? {
        var m := Merge(cfg, loaded.preview, path, content, base);
        if m.Merged? { WriteFewer(cfg, next, loaded.preview.path, loaded.text, m.base, Some(loaded.preview)); }
      }
    }
  }

  lemma StepFollows(cfg: Config, d: Disk, a: Action)
    requires Sound(d)
    ensures Sound(Step(cfg, d, a)) && Follows(d, Step(cfg, d, a)) && d.clock < Step(cfg, d, a).clock
    ensures !a.Damage? ==> Unspoilt(d, Step(cfg, d, a))
  {
    hide DoPreview, DoApply, DoRollback, Follows, Unspoilt, Damaged;
    var e := Step(cfg, d, a);
    match a
    case MakePreview(path, content, base) =>
      SoundAfterPreview(cfg, d, path, content, base);
      PreviewFewer(cfg, d, path, content, base);
      OnlyFewer(d, e);
    case Apply(path, content, base, id) =>
      SoundAfterApply(cfg, d, path, content, base, id);
      ApplyFewer(cfg, d, path, content, base, id);
      OnlyFewer(d, e);
    case Rollback(path, id) =>
      SoundAfterRollback(cfg, d, path, id);
      RollbackFewer(cfg, d, path, id);
      OnlyFewer(d, e);
    case Edit(path, bytes) =>
      OnlyFewer(d, e);
    case Damage(id, intact, content) =>
      DamageFollows(cfg, d, id, intact, content);
  }

  lemma RollbackFewer(cfg: Config, d: Disk, path: string, id: nat)
    ensures DoRollback(cfg, d, path, id).0.pending == d.pending && DoRollback(cfg, d, path, id).0.clock > d.clock
  {
  }

  lemma DamageFollows(cfg: Config, d: Disk, id: nat, intact: bool, content: Option<string>)
    requires Sound(d)
    ensures var e := Step(cfg, d, Damage(id, intact, content)); Sound(e) && Follows(d, e) && d.clock < e.clock
  {
    var e := Step(cfg, d, Damage(id, intact, content));
    forall p | p in e.pending ensures exists q :: q in d.pending && SameRecord(p, q) {
      var i :| 0 <= i < |e.pending| && e.pending[i] == p;
      assert SameRecord(p, d.pending[i]);
    }
  }

  predicate DamageFree(actions: seq<Action>)
  {
    forall i :: 0 <= i < |actions| ==> !actions[i].Damage?
  }

  lemma {:induction false} RunFollows(cfg: Config, d: Disk, actions: seq<Action>)
    requires Sound(d)
    ensures Sound(After(cfg, d, actions)) && Follows(d, After(cfg, d, actions))
    ensures DamageFree(actions) ==> Unspoilt(d, After(cfg, d, actions))
  {
    hide Sound, Follows, Unspoilt, Step;
    if actions == [] {
      FollowsSelf(d);
    } else {
      var front, last := actions[..|actions| - 1], actions[|actions| - 1];
      RunFollows(cfg, d, front);
      StepFollows(cfg, After(cfg, d, front), last);
      FollowsTransitive(d, After(cfg, d, front), After(cfg, d, actions));
    }
  }

  lemma FollowsNotPending(d: Disk, e: Disk, id: nat)
    requires Follows(d, e) && id <= d.clock && !IsPending(d, id)
    ensures !IsPending(e, id)
  {
  }

  /** An id that is not pending, although the clock has passed it, is never pending again. */
  lemma NeverPendingAgain(cfg: Config, d: Disk, actions: seq<Action>, id: nat)
    requires Sound(d) && id <= d.clock && !IsPending(d, id)
    ensures !IsPending(After(cfg, d, actions), id)
  {
    hide Sound, Follows, After, IsPending;
    RunFollows(cfg, d, actions);
    FollowsNotPending(d, After(cfg, d, actions), id);
  }

  // ----- Applying a preview --------------------------------------------------------------

  lemma LoadedInTime(cfg: Config, d: Disk, id: nat)
    ensures Load(cfg, d, id).1.Loaded? ==> !Overdue(cfg, Load(cfg, d, id).1.preview, d.clock)
  {
  }

  lemma LoadedWrites(cfg: Config, d: Disk, a: Action)
    requires a.Apply? && a.id.Some? && Wrote(cfg, d, a)
    ensures var t := Tick(cfg, d);
            var loaded := Load(cfg, t, a.id.value).1;
            loaded.Loaded? && loaded.preview in d.pending && loaded.preview.id == a.id.value &&
            loaded.preview.content == Some(loaded.text) && cfg.hash(loaded.text) == loaded.preview.newHash
    ensures var t := Tick(cfg, d);
            var p, text := Load(cfg, t, a.id.value).1.preview, Load(cfg, t, a.id.value).1.text;
            (a.path == "" || a.path == p.path) && cfg.verdict(p.path) == Allowed &&
            var s := ReadState(cfg, d.files, p.path);
            s.Some? && s.value.mtime == p.mtime && s.value.hash == p.hash &&
            Step(cfg, d, a) == Written(cfg, t, p.path, text, s.value, Some(p))
    ensures !Overdue(cfg, Load(cfg, Tick(cfg, d), a.id.value).1.preview, Tick(cfg, d).clock)
  {
    hide Load, Written, ReadState, Overdue;
    LoadKeeps(cfg, Tick(cfg, d), a.id.value);
    LoadedInTime(cfg, Tick(cfg, d), a.id.value);
  }

  lemma WrittenForgets(cfg: Config, d: Disk, path: string, content: string, s: FileState, p: Preview)
    ensures !IsPending(Written(cfg, d, path, content, s, Some(p)), p.id)
    ensures Written(cfg, d, path, content, s, Some(p)).files == d.files[path := File(Encode(content, s.format), d.clock)]
    ensures Written(cfg, d, path, content, s, Some(p)).clock == d.clock
  {
    hide SetStatus, WithoutPreview, Encode;
    WithoutPreviewMembers(d.pending, p.id);
  }

  lemma PendingIdPassed(d: Disk, p: Preview)
    requires Sound(d) && p in d.pending
    ensures p.id <= d.clock
  {
  }

  lemma UniquePending(d: Disk, p: Preview, q: Preview)
    requires Sound(d) && p in d.pending && q in d.pending && p.id == q.id
    ensures p == q
  {
  }

  lemma FateIsNewest(statuses: seq<Status>, id: nat, fate: Fate, keep: nat)
    ensures FindStatus(Newest(SetStatus(statuses, id, fate), keep), id) == Some(fate)
  {
    var all := SetStatus(statuses, id, fate);
    var rest := Newest(all, keep);
    assert rest[|rest| - 1] == Status(id, fate);
  }

  lemma UsedUp(cfg: Config, d: Disk, path: string, content: string, s: FileState, p: Preview)
    ensures FindStatus(Written(cfg, d, path, content, s, Some(p)).statuses, p.id) == Some(WasApplied)
  {
    hide FindStatus, SetStatus, WithoutPreview, Newest, Encode;
    FateIsNewest(d.statuses, p.id, WasApplied, cfg.statusKeep);
  }

  lemma LoadOfGone(cfg: Config, d: Disk, id: nat)
    requires !IsPending(d, id)
    ensures Load(cfg, d, id) ==
            (d, LoadFailed(match FindStatus(d.statuses, id) case None => PreviewNotFound case Some(fate) => PreviewGone(fate)))
  {
  }

  /** Applying a preview twice in a row: the second call reports that it was applied. */
  lemma ReapplyIsReported(cfg: Config, d: Disk, a: Action)
    requires Sound(d) && a.Apply? && a.id.Some? && Wrote(cfg, d, a)
    ensures DoApply(cfg, Step(cfg, d, a), a.path, a.content, a.base, a.id).1 == ApplyFailed(PreviewGone(WasApplied))
  {
    hide Sound, Wrote, Load, Written, ReadState, FindStatus, IsPending;
    LoadedWrites(cfg, d, a);
    var t := Tick(cfg, d);
    var p, text := Load(cfg, t, a.id.value).1.preview, Load(cfg, t, a.id.value).1.text;
    var s := ReadState(cfg, d.files, p.path).value;
    WrittenForgets(cfg, t, p.path, text, s, p);
    UsedUp(cfg, t, p.path, text, s, p);
    SameListsPending(Step(cfg, d, a), Tick(cfg, Step(cfg, d, a)), p.id);
    LoadOfGone(cfg, Tick(cfg, Step(cfg, d, a)), p.id);
  }

  lemma SameListsPending(d: Disk, e: Disk, id: nat)
    requires d.pending == e.pending
    ensures IsPending(d, id) == IsPending(e, id)
  {
  }

  /** No lost update: once the file of a pending preview has another content hash or another write
      time than when it was previewed, applying the preview writes nothing. */
  lemma NoLostUpdate(cfg: Config, d: Disk, a: Action, p: Preview)
    requires Sound(d) && p in d.pending && a.Apply? && a.id == Some(p.id)
    requires var s := ReadState(cfg, d.files, p.path); s.Some? && (s.value.hash != p.hash || s.value.mtime != p.mtime)
    ensures !Wrote(cfg, d, a) && Step(cfg, d, a).files == d.files && Step(cfg, d, a).backups == d.backups
  {
    hide Sound, Load, Written, ReadState;
    if Wrote(cfg, d, a) {
      LoadedWrites(cfg, d, a);
      UniquePending(d, Load(cfg, Tick(cfg, d), p.id).1.preview, p);
    }
    LoadKeeps(cfg, Tick(cfg, d), p.id);
  }

  /** An apply through an id that is not pending fails, and moves nothing but the clock. */
  lemma GonePreview(cfg: Config, d: Disk, a: Action)
    requires a.Apply? && a.id.Some? && !IsPending(d, a.id.value)
    ensures !Wrote(cfg, d, a) && Step(cfg, d, a) == Tick(cfg, d)
  {
  }

  /** In every run a preview is applied at most once: whatever comes between, a later apply through
      the same id fails and changes no file, preview, status or backup. */
  lemma AppliedAtMostOnce(cfg: Config, d: Disk, first: Action, between: seq<Action>, second: Action)
    requires Sound(d) && first.Apply? && second.Apply? && first.id.Some? && second.id == first.id
    requires Wrote(cfg, d, first)
    ensures var e := After(cfg, Step(cfg, d, first), between);
            !Wrote(cfg, e, second) && Step(cfg, e, second) == Tick(cfg, e)
  {
    hide Sound, Follows, After, IsPending, Wrote, Load, Written, Step, Tick;
    LoadedWrites(cfg, d, first);
    var t := Tick(cfg, d);
    var p, text := Load(cfg, t, first.id.value).1.preview, Load(cfg, t, first.id.value).1.text;
    var s := ReadState(cfg, d.files, p.path);
    WrittenForgets(cfg, t, p.path, text, s.value, p);
    PendingIdPassed(d, p);
    StepFollows(cfg, d, first);
    NeverPendingAgain(cfg, Step(cfg, d, first), between, p.id);
    GonePreview(cfg, After(cfg, Step(cfg, d, first), between), second);
  }

  /** What a successful preview leaves pending. */
  lemma PreviewIsPending(cfg: Config, d: Disk, path: string, content: string, base: Base)
    requires Sound(d) && DoPreview(cfg, d, path, content, base).1.Previewed?
    ensures var (e, r) := DoPreview(cfg, d, path, content, base);
            e.pending != [] && r.id == e.clock && r.id > d.clock &&
            e.pending[|e.pending| - 1] ==
              Preview(r.id, path, r.mtime, r.hash, cfg.hash(content), r.id / 1000, true, Some(content)) &&
            (cfg.previewKeep > 0 ==> |e.pending| <= cfg.previewKeep)
  {
    hide ContextDiff, ReadState, WithoutStatus, MarkEvicted;
  }

  lemma DiscardForgets(d: Disk, id: nat, fate: Fate, keep: nat)
    ensures var e := Discard(d, id, fate);
            !IsPending(e, id) && FindStatus(e.statuses, id) == Some(fate) &&
            FindStatus(Newest(e.statuses, keep), id) == Some(fate)
  {
    hide SetStatus, FindStatus, WithoutPreview, Newest;
    WithoutPreviewMembers(d.pending, id);
    FateIsNewest(d.statuses, id, fate, 0);
    FateIsNewest(d.statuses, id, fate, keep);
    AllOfThem(SetStatus(d.statuses, id, fate));
  }

  lemma AllOfThem(statuses: seq<Status>)
    ensures Newest(statuses, 0) == statuses
  {
  }

  /** A pending preview that cannot be loaded is gone with a fate: expired if its time was over, else
      invalid because something of it was damaged. */
  lemma FailedLoadDiscards(cfg: Config, d: Disk, id: nat)
    requires IsPending(d, id) && Load(cfg, d, id).1.LoadFailed?
    ensures var p, e := FindPreview(d.pending, id).value, Load(cfg, d, id).0;
            var expired := p.intact && Overdue(cfg, p, d.clock);
            !IsPending(e, id) && FindStatus(e.statuses, id) == Some(if expired then WasExpired else WasInvalid) &&
            (!expired ==> !p.intact || p.content.None? || cfg.hash(p.content.value) != p.newHash) &&
            (expired && cfg.statusKeep > 0 ==> |e.statuses| <= cfg.statusKeep)
  {
    hide FindPreview, FindStatus, Discard, Newest, Overdue;
    DiscardForgets(d, id, WasExpired, cfg.statusKeep);
    DiscardForgets(d, id, WasInvalid, 0);
    SameStatuses(Discard(d, id, WasExpired), cfg.statusKeep, id);
  }

  lemma SameStatuses(d: Disk, keep: nat, id: nat)
    ensures IsPending(d.(statuses := Newest(d.statuses, keep)), id) == IsPending(d, id)
  {
  }

  /** Eviction takes the oldest previews, and no more than it must. */
  lemma EvictsOldest(cfg: Config, d: Disk, i: nat)
    requires Sound(d) && i < |d.pending|
    ensures var e := Evict(cfg, d);
            |e.pending| == (if cfg.previewKeep == 0 || |d.pending| <= cfg.previewKeep then |d.pending| else cfg.previewKeep) &&
            (IsPending(e, d.pending[i].id) <==> i >= |d.pending| - |e.pending|)
  {
    hide MarkEvicted, FindPreview;
    var e := Evict(cfg, d);
    var cut := |d.pending| - |e.pending|;
    if i >= cut {
      StillListed(e.pending, i - cut);
    } else {
      NotListed(d, cut, i);
    }
  }

  /** An evicted preview is reported as evicted exactly while its status is kept.  The statuses of one
      eviction are written newest preview first, so that of the i-th oldest preview is kept if and only
      if more than i statuses are; one whose status is gone is forgotten, and its id unknown. */
  lemma EvictionIsReported(cfg: Config, d: Disk, i: nat)
    requires Sound(d) && i < |d.pending| - |Evict(cfg, d).pending|
    ensures var e, id := Evict(cfg, d), d.pending[i].id;
            FindStatus(e.statuses, id) == (if cfg.statusKeep == 0 || i < cfg.statusKeep then Some(WasEvicted) else None) &&
            Load(cfg, e, id).1 ==
              LoadFailed(if cfg.statusKeep == 0 || i < cfg.statusKeep then PreviewGone(WasEvicted) else PreviewNotFound)
  {
    hide MarkEvicted, FindStatus, FindPreview, Newest, StatusesSettled;
    var e, cut := Evict(cfg, d), |d.pending| - cfg.previewKeep;
    var evicted, kept := d.pending[..cut], d.pending[cut..];
    assert d.pending == evicted + kept;
    EvictsOldest(cfg, d, i);
    MarksAtEnd(d.statuses, evicted, kept, d.clock);
    MarkEvictedSettled(d.statuses, evicted, kept, d.clock);
    MarkAt(evicted, i);
    var all := MarkEvicted(d.statuses, evicted);
    var k := |all| - 1 - i;
    assert all[k] == Status(evicted[i].id, WasEvicted);
    NewestHolds(all, kept, k, cfg.statusKeep, d.clock);
    LoadOfGone(cfg, e, d.pending[i].id);
  }

  /** Two previews evicted at once where one status is kept: the newer of them is unknown afterwards. */
  lemma EvictionForgets(cfg: Config, p: Preview)
    requires cfg.previewKeep == 1 && cfg.statusKeep == 1
    ensures var e := Evict(cfg, Disk(map[], [p.(id := 1), p.(id := 2), p.(id := 3)], [], [], 3));
            Load(cfg, e, 1).1 == LoadFailed(PreviewGone(WasEvicted)) && Load(cfg, e, 2).1 == LoadFailed(PreviewNotFound)
  {
    hide Evict, Load;
    var d := Disk(map[], [p.(id := 1), p.(id := 2), p.(id := 3)], [], [], 3);
    EvictsOldest(cfg, d, 0);
    EvictionIsReported(cfg, d, 0);
    EvictionIsReported(cfg, d, 1);
  }

  /** The statuses an eviction writes, in writing order. */
  function Marks(evicted: seq<Preview>): (out: seq<Status>)
    ensures |out| == |evicted|
  {
    if evicted == [] then []
    else [Status(evicted[|evicted| - 1].id, WasEvicted)] + Marks(evicted[..|evicted| - 1])
  }

  lemma {:induction false} MarkAt(evicted: seq<Preview>, i: nat)
    requires i < |evicted|
    ensures Marks(evicted)[|evicted| - 1 - i] == Status(evicted[i].id, WasEvicted)
  {
    if i < |evicted| - 1 { MarkAt(evicted[..|evicted| - 1], i); }
  }

  lemma {:induction false} WithoutUnknown(statuses: seq<Status>, id: nat)
    requires forall i :: 0 <= i < |statuses| ==> statuses[i].id != id
    ensures WithoutStatus(statuses, id) == statuses
  {
    if statuses != [] {
      WithoutUnknown(statuses[..|statuses| - 1], id);
      assert statuses == statuses[..|statuses| - 1] + [statuses[|statuses| - 1]];
    }
  }

  /** Pending previews have no status yet, so an eviction only adds to the statuses. */
  lemma {:induction false} MarksAtEnd(statuses: seq<Status>, evicted: seq<Preview>, kept: seq<Preview>, clock: nat)
    requires RisingPreviews(evicted + kept, clock) && StatusesSettled(statuses, evicted + kept, clock)
    ensures MarkEvicted(statuses, evicted) == statuses + Marks(evicted)
    decreases |evicted|
  {
    hide WithoutStatus, StatusesSettled, RisingPreviews;
    if evicted == [] {
      assert statuses + [] == statuses;
    } else {
      var front, last := evicted[..|evicted| - 1], evicted[|evicted| - 1];
      assert evicted + kept == front + [last] + kept;
      LastUnknown(statuses, front, last, kept, clock);
      WithoutUnknown(statuses, last.id);
      RisingMiddle(front, last, kept, clock);
      MarksAtEnd(statuses + [Status(last.id, WasEvicted)], front, kept, clock);
      assert statuses + [Status(last.id, WasEvicted)] + Marks(front) == statuses + ([Status(last.id, WasEvicted)] + Marks(front));
    }
  }

  lemma LastUnknown(statuses: seq<Status>, front: seq<Preview>, last: Preview, kept: seq<Preview>, clock: nat)
    requires RisingPreviews(front + [last] + kept, clock) && StatusesSettled(statuses, front + [last] + kept, clock)
    ensures forall i :: 0 <= i < |statuses| ==> statuses[i].id != last.id
    ensures StatusesSettled(statuses + [Status(last.id, WasEvicted)], front + kept, clock)
  {
    var all, rest := front + [last] + kept, front + kept;
    assert all[|front|] == last;
    forall i | 0 <= i < |statuses| ensures statuses[i].id != last.id {
      assert statuses[i].id != all[|front|].id;
    }
    forall k | 0 <= k < |rest| ensures rest[k] == all[if k < |front| then k else k + 1] && rest[k].id != last.id {
    }
  }

  /** With one status per id, a cleaned-up list knows an id exactly if it kept its place. */
  lemma NewestHolds(statuses: seq<Status>, pending: seq<Preview>, k: nat, keep: nat, clock: nat)
    requires StatusesSettled(statuses, pending, clock) && k < |statuses|
    ensures FindStatus(Newest(statuses, keep), statuses[k].id) ==
            if keep == 0 || |statuses| - 1 - k < keep then Some(statuses[k].fate) else None
  {
    hide FindStatus;
    var rest := Newest(statuses, keep);
    var cut := |statuses| - |rest|;
    if k >= cut {
      assert rest[k - cut] == statuses[k];
      forall i | k - cut < i < |rest| ensures rest[i].id != statuses[k].id {
        assert rest[i] == statuses[cut + i];
      }
      FindStatusAt(rest, k - cut);
    } else {
      forall i | 0 <= i < |rest| ensures rest[i].id != statuses[k].id {
        assert rest[i] == statuses[cut + i];
      }
      FindNoStatus(rest, statuses[k].id);
    }
  }

  lemma {:induction false} FindStatusAt(statuses: seq<Status>, k: nat)
    requires k < |statuses| && forall i :: k < i < |statuses| ==> statuses[i].id != statuses[k].id
    ensures FindStatus(statuses, statuses[k].id) == Some(statuses[k].fate)
  {
    if k < |statuses| - 1 { FindStatusAt(statuses[..|statuses| - 1], k); }
  }

  lemma {:induction false} FindNoStatus(statuses: seq<Status>, id: nat)
    requires forall i :: 0 <= i < |statuses| ==> statuses[i].id != id
    ensures FindStatus(statuses, id) == None
  {
    if statuses != [] { FindNoStatus(statuses[..|statuses| - 1], id); }
  }

  lemma NotListed(d: Disk, cut: nat, i: nat)
    requires Sound(d) && i < cut <= |d.pending|
    ensures FindPreview(d.pending[cut..], d.pending[i].id).None?
  {
    var rest := d.pending[cut..];
    forall k | 0 <= k < |rest| ensures rest[k].id != d.pending[i].id {
      assert rest[k] == d.pending[cut + k];
    }
  }

  lemma StillListed(pending: seq<Preview>, i: nat)
    requires i < |pending|
    ensures FindPreview(pending, pending[i].id).Some?
  {
  }

  /** What is applied through an id is what was previewed under it.  The file written is the
      previewed one; it still has the write time and the content hash it had then; and what is written
      has the hash of the previewed content, and is that content itself if no preview was damaged
      in between. */
  lemma AppliedAsPreviewed(cfg: Config, d: Disk, path: string, content: string, base: Base,
                           between: seq<Action>, a: Action)
    requires Sound(d)
    requires DoPreview(cfg, d, path, content, base).1.Previewed?
    requires a.Apply? && a.id == Some(DoPreview(cfg, d, path, content, base).1.id)
    requires Wrote(cfg, After(cfg, DoPreview(cfg, d, path, content, base).0, between), a)
    ensures var (e, r) := DoPreview(cfg, d, path, content, base);
            var f := After(cfg, e, between);
            var s := ReadState(cfg, f.files, path);
            (a.path == "" || a.path == path) && s.Some? && s.value.mtime == r.mtime && s.value.hash == r.hash &&
            !(cfg.ttl > 0 && r.id >= 1000 && Tick(cfg, f).clock / 1000 > r.id / 1000 + cfg.ttl) &&
            exists text ::
              cfg.hash(text) == cfg.hash(content) && (DamageFree(between) ==> text == content) &&
              Step(cfg, f, a).files == f.files[path := File(Encode(text, s.value.format), Tick(cfg, f).clock)]
  {
    hide Sound, After, IsPending, Wrote, Load, Written, Step, Tick, ReadState, DoPreview, Encode;
    var (e, r) := DoPreview(cfg, d, path, content, base);
    SoundAfterPreview(cfg, d, path, content, base);
    PreviewIsPending(cfg, d, path, content, base);
    var q := e.pending[|e.pending| - 1];
    RunFollows(cfg, e, between);
    var f := After(cfg, e, between);
    LoadedWrites(cfg, f, a);
    var t := Tick(cfg, f);
    var p, text := Load(cfg, t, r.id).1.preview, Load(cfg, t, r.id).1.text;
    var was :| was in e.pending && SameRecord(p, was);
    UniquePending(e, was, q);
    if DamageFree(between) { UniquePending(e, p, q); }
    var s := ReadState(cfg, f.files, path);
    WrittenForgets(cfg, t, path, text, s.value, p);
    TickKeepsFiles(cfg, f);
  }

  lemma TickKeepsFiles(cfg: Config, d: Disk)
    ensures Tick(cfg, d).files == d.files
  {
  }
}

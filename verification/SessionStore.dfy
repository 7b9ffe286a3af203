/** The session operations as they run, step by step, over the patch store (session_service.cpp). */
module SessionStore {
  import opened Text
  import opened ChangeRecord
  import opened Names
  import opened Plan
  import opened Recovery
  import opened Diff
  import opened TextLines
  import opened PatchStore
  import opened Commit
  import opened Sessions

  class Session {
    const id: string
    const store: PatchStore
    var begun: bool
    var stage: Stage
    var entries: seq<Entry>
    var record: seq<CommitFile>

    /** The session this object stands for. */
    function Snap(): Sess
      reads this
    {
      Sess(begun, stage, entries, record)
    }

    constructor (id: string, store: PatchStore)
      ensures this.id == id && this.store == store && Snap() == Sess(false, Created, [], [])
    {
      this.id, this.store := id, store;
      begun, stage, entries, record := false, Created, [], [];
    }

    /** session_begin */
    method Begin() returns (ok: bool)
      modifies this
      ensures (Snap(), ok) == DoBegin(id, old(Snap()))
    {
      if id == "" { return false; }
      if !begun {
        begun, stage := true, Created;
      }
      return true;
    }

    /** save_change */
    method SaveChange(c: StagedChange)
      modifies this`entries
      ensures entries == PutEntry(old(entries), Entry(FileName(|old(entries)| + 1, c.changeId), SerializedChange(c)))
    {
      hide FileName, SerializedChange, Position;
      var e := Entry(FileName(|entries| + 1, c.changeId), SerializedChange(c));
      var names := NamesOf(entries);
      var k := Position(names, e.name);
      if k < |entries| && names[k] == e.name {
        entries := entries[k := e];
      } else {
        entries := entries[..k] + [e] + entries[k..];
      }
    }

    /** session_add */
    method Add(input: StagedChange, freshId: string, now: string) returns (ok: bool)
      modifies this
      ensures (Snap(), ok) == DoAdd(id, old(Snap()), input, freshId, now)
    {
      hide FileName, SerializedChange, PutEntry, SelectorSummary;
      if !begun || stage == Done || stage == Aborted { return false; }
      var c := input.(sessionId := id);
      if c.changeId == "" { c := c.(changeId := freshId); }
      if c.createdAt == "" { c := c.(createdAt := now); }
      if c.selectorReason == "" { c := c.(selectorReason := SelectorSummary(c)); }
      if c.anchor == "" { c := c.(anchor := JoinNonEmpty(c.selector.anchorBefore, c.selector.anchorAfter)); }
      SaveChange(c);
      stage := Staging;
      return true;
    }

    /** load_changes */
    method LoadChanges() returns (changes: seq<StagedChange>)
      ensures changes == LoadAll(entries)
    {
      hide DeserializedChange;
      changes := [];
      for i := 0 to |entries|
        invariant changes == LoadAll(entries)[..i]
      {
        changes := changes + [DeserializedChange(entries[i].text)];
      }
    }

    /** What a preview and a commit do first: recovery_check and build_planned_files. */
    method Prepare() returns (planned: Option<seq<PlannedFile>>)
      ensures planned == Ready(store.config, store.Snap(), Snap())
    {
      hide Check, PlanOf, LoadAll;
      if !begun || stage == Done || stage == Aborted { return None; }
      var changes := LoadChanges();
      var probe := ProbeOf(store.config, store.files);
      var check := RecoveryCheck(changes, probe);
      if check.None? { return None; }
      if check.value.conflicts > 0 { return None; }
      if check.value.rebases > 0 { return None; }
      planned := BuildPlannedFiles(changes, Contents(probe));
    }

    /** session_preview */
    method PreviewAll() returns (previews: Option<seq<FilePreview>>)
      requires store.Valid()
      modifies this, store
      ensures (store.Snap(), Snap(), previews) == DoPreviewAll(store.config, old(store.Snap()), old(Snap()))
      ensures store.Valid()
    {
      hide Ready, DoPreview, Sound, Analyzed, GetLines;
      var planned := Prepare();
      if planned.None? { return None; }
      var files, done := planned.value, [];
      ghost var was := store.Snap();
      for i := 0 to |files|
        invariant store.Valid() && Snap() == old(Snap())
        invariant PreviewFirst(store.config, was, files, i) == PreviewRun(store.Snap(), done, false)
      {
        var p := store.PatchPreview(files[i].path, files[i].finalContent, NO_BASE);
        if p.PreviewFailed? {
          PreviewsStuck(store.config, was, files, i + 1, |files|);
          return None;
        }
        var stats := AnalyzeDiff(p.diff);
        done := done + [FilePreview(files[i].path, p.id, p.applicable, p.diff, stats)];
      }
      if files != [] { stage := InPreview; }
      return Some(done);
    }

    /** session_commit */
    method CommitPlan() returns (committed: Option<seq<CommitFile>>)
      requires store.Valid()
      modifies this, store
      ensures (store.Snap(), Snap(), committed) == DoCommit(store.config, old(store.Snap()), old(Snap()))
      ensures store.Valid()
    {
      hide Ready, DoPreview, DoApply, Sound;
      var planned := Prepare();
      if planned.None? { return None; }
      var files, done := planned.value, [];
      ghost var was := store.Snap();
      stage := Validating;
      for i := 0 to |files|
        invariant store.Valid() && Snap() == old(Snap()).(stage := stage)
        invariant CommitFirst(store.config, was, files, i) == Progress(store.Snap(), done, false)
      {
        stage := Writing;
        var p := store.PatchPreview(files[i].path, files[i].finalContent, NO_BASE);
        if p.PreviewFailed? {
          CommitStuck(store.config, was, files, i + 1, |files|);
          return None;
        }
        var base := Base(p.mtime, p.hash);
        var a := store.PatchApply(files[i].path, files[i].finalContent, base, Some(p.id));
        if !a.Applied? {
          CommitStuck(store.config, was, files, i + 1, |files|);
          return None;
        }
        stage := Verifying;
        done := done + [CommitFile(files[i].path, p.id, a.backupId, a.hash)];
      }
      record := done;
      stage := Done;
      return Some(done);
    }

    /** session_abort */
    method Abort() returns (ok: bool)
      modifies this
      ensures (Snap(), ok) == DoAbort(old(Snap()))
    {
      if !begun { return false; }
      stage := Aborted;
      return true;
    }

    /** session_drop_change */
    method DropChange(changeId: string) returns (ok: bool)
      modifies this
      ensures (Snap(), ok) == DoDropChange(old(Snap()), changeId)
    {
      hide NamedBy;
      if changeId == "" { return false; }
      if !begun || stage == Done || stage == Aborted { return false; }
      var rest, removed := [], false;
      for i := 0 to |entries|
        invariant rest == WithoutId(entries[..i], changeId) && (removed <==> |rest| < i)
      {
        assert entries[..i + 1][..i] == entries[..i];
        if NamedBy(entries[i], changeId) {
          removed := true;
        } else {
          rest := rest + [entries[i]];
        }
      }
      assert entries[..|entries|] == entries;
      if !removed { return false; }
      entries := rest;
      stage := if entries == [] then Created else Staging;
      return true;
    }

    /** session_drop_path */
    method DropPath(path: string) returns (ok: bool)
      modifies this
      ensures (Snap(), ok) == DoDropPath(old(Snap()), path)
    {
      hide OnPath;
      if !begun || stage == Done || stage == Aborted { return false; }
      var rest, removed := [], 0;
      for i := 0 to |entries|
        invariant rest == WithoutFile(entries[..i], path) && removed == i - |rest|
      {
        assert entries[..i + 1][..i] == entries[..i];
        if OnPath(entries[i], path) {
          removed := removed + 1;
        } else {
          rest := rest + [entries[i]];
        }
      }
      assert entries[..|entries|] == entries;
      if removed == 0 { return false; }
      entries := rest;
      stage := if entries == [] then Created else Staging;
      return true;
    }

    /** recovery_rebase */
    method Rebase() returns (ok: bool)
      modifies this
      ensures (Snap(), ok) == DoRebase(store.config, store.Snap(), old(Snap()))
    {
      hide Check, DeserializedChange, SerializedChange, Restaged, LoadAll, DuePaths, RestageEntries;
      if !begun || stage == Done || stage == Aborted { return false; }
      var changes := LoadChanges();
      var probe := ProbeOf(store.config, store.files);
      var check := RecoveryCheck(changes, probe);
      if check.None? { return false; }
      if check.value.conflicts > 0 { return false; }
      var need := PathsToRebase(changes, probe, check.value.files);
      var all := entries;
      RestageNothing(need, probe);
      assert all[..0] == [] && [] + all[0..] == all;
      for i := 0 to |all|
        invariant entries == RestageEntries(all[..i], need, probe) + all[i..]
        invariant Snap() == old(Snap()).(entries := entries)
      {
        RestageStep(all, i, entries, need, probe);
        var c := DeserializedChange(all[i].text);
        if c.path in need {
          var fp := probe(c.path).value;
          entries := entries[i := all[i].(text := SerializedChange(Restaged(c, fp)))];
        }
      }
      assert all[..|all|] == all && RestageEntries(all, need, probe) + [] == RestageEntries(all, need, probe);
      if need != {} { stage := Staging; }
      return true;
    }
  }

  /** What a rebase makes of one change file. */
  function RestagedEntry(e: Entry, need: set<string>, probe: Probe): Entry
    requires forall p :: p in need ==> probe(p).Some?
  {
    var c := DeserializedChange(e.text);
    if c.path in need then e.(text := SerializedChange(Restaged(c, probe(c.path).value))) else e
  }

  /** Rewriting the change files in place, one by one. */
  lemma RestageStep(all: seq<Entry>, i: nat, cur: seq<Entry>, need: set<string>, probe: Probe)
    requires i < |all| && forall p :: p in need ==> probe(p).Some?
    requires cur == RestageEntries(all[..i], need, probe) + all[i..]
    ensures i < |cur| && cur[i] == all[i]
    ensures cur[i := RestagedEntry(all[i], need, probe)] == RestageEntries(all[..i + 1], need, probe) + all[i + 1..]
  {
    hide RestageEntries, RestagedEntry;
    RestageSnoc(all[..i], all[i], need, probe);
    assert all[..i + 1] == all[..i] + [all[i]];
    assert all[i..] == [all[i]] + all[i + 1..];
    UpdateMiddle(RestageEntries(all[..i], need, probe), all[i], all[i + 1..], RestagedEntry(all[i], need, probe));
  }

  lemma UpdateMiddle(front: seq<Entry>, x: Entry, tail: seq<Entry>, y: Entry)
    ensures var cur := front + ([x] + tail);
            cur[|front|] == x && cur[|front| := y] == front + [y] + tail
  {
  }

  lemma RestageSnoc(front: seq<Entry>, last: Entry, need: set<string>, probe: Probe)
    requires forall p :: p in need ==> probe(p).Some?
    ensures RestageEntries(front + [last], need, probe) ==
            RestageEntries(front, need, probe) + [RestagedEntry(last, need, probe)]
  {
    hide DeserializedChange, SerializedChange, Restaged;
    assert (front + [last])[..|front|] == front;
  }

  lemma RestageNothing(need: set<string>, probe: Probe)
    requires forall p :: p in need ==> probe(p).Some?
    ensures RestageEntries([], need, probe) == []
  {
  }

  /** The files a check marks for a rebase, as a set. */
  method PathsToRebase(changes: seq<StagedChange>, probe: Probe, files: seq<CheckedFile>) returns (need: set<string>)
    requires Check(changes, probe).Some? && Check(changes, probe).value.files == files
    ensures need == DuePaths(changes, probe)
  {
    hide Check, DuePaths, PathsOf;
    need := {};
    CheckedAll(changes, probe);
    for i := 0 to |files|
      invariant forall p :: p in need <==> p in DuePaths(changes, probe) && exists j :: 0 <= j < i && files[j].path == p
    {
      MarkedFiles(changes, probe, i);
      if files[i].status == RebaseRequired { need := need + {files[i].path}; }
    }
  }

  lemma CheckedAll(changes: seq<StagedChange>, probe: Probe)
    requires Check(changes, probe).Some?
    ensures var files := Check(changes, probe).value.files;
            |files| == |PathsOf(changes)| &&
            forall p :: p in DuePaths(changes, probe) ==> exists j :: 0 <= j < |files| && files[j].path == p
  {
    hide PathsOf, Due, ChangesFor, StatusOf, Count;
    PathsStaged(changes);
    var files := Check(changes, probe).value.files;
    forall p | p in DuePaths(changes, probe) ensures exists j :: 0 <= j < |files| && files[j].path == p {
      var j :| 0 <= j < |PathsOf(changes)| && PathsOf(changes)[j] == p;
      assert files[j].path == p;
    }
  }

  lemma {:induction false} PreviewsStuck(cfg: Config, d: Disk, files: seq<PlannedFile>, i: nat, n: nat)
    requires i <= n <= |files| && PreviewFirst(cfg, d, files, i).failed
    ensures PreviewFirst(cfg, d, files, n) == PreviewFirst(cfg, d, files, i)
  {
    hide DoPreview, Analyzed, GetLines;
    if i < n { PreviewsStuck(cfg, d, files, i, n - 1); }
  }

  lemma {:induction false} CommitStuck(cfg: Config, d: Disk, files: seq<PlannedFile>, i: nat, n: nat)
    requires i <= n <= |files| && CommitFirst(cfg, d, files, i).failed
    ensures CommitFirst(cfg, d, files, n) == CommitFirst(cfg, d, files, i)
  {
    hide CommitOne;
    if i < n { CommitStuck(cfg, d, files, i, n - 1); }
  }
}

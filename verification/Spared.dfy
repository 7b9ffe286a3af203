/** What a run of session calls does not touch: the bytes of a path, and what its staged changes make
    of it (session_service.cpp). */
module Spared {
  import opened ChangeRecord
  import opened ChangeRoundTrip
  import opened Names
  import opened Plan
  import opened Recovery
  import opened TextLines
  import opened Diff
  import opened PatchStore
  import Store = StoreRuns
  import opened Undo
  import opened Commit
  import opened Sessions
  import opened SessionRuns

  /** The staged changes of a path. */
  function Mine(s: Sess, p: string): seq<StagedChange> { ChangesFor(LoadAll(s.entries), p) }

  /** Two sessions stage the same edits of a path: none, or changes that replay alike on any content. */
  ghost predicate SameEdits(s: Sess, t: Sess, p: string)
  {
    (Mine(s, p) == [] <==> Mine(t, p) == []) &&
    forall content :: Replay(Mine(s, p), content) == Replay(Mine(t, p), content)
  }

  lemma SameEditsSelf(s: Sess, t: Sess, p: string)
    requires Mine(s, p) == Mine(t, p)
    ensures SameEdits(s, t, p)
  {
    hide Mine, Replay;
  }

  lemma SameEditsTransitive(s: Sess, t: Sess, u: Sess, p: string)
    requires SameEdits(s, t, p) && SameEdits(t, u, p)
    ensures SameEdits(s, u, p)
  {
    hide Mine, Replay;
    forall content ensures Replay(Mine(s, p), content) == Replay(Mine(u, p), content) {
      assert Replay(Mine(s, p), content) == Replay(Mine(t, p), content);
    }
  }

  // ----- Calls that leave a path alone ---------------------------------------------------

  /** The call neither edits, drops nor writes path `p`: it adds a change of another path without
      overwriting one of `p`, drops other changes, commits nothing or stops before `p`, or does
      something to the disk that leaves the bytes of `p`. */
  ghost predicate Spares(cfg: Config, id: string, w: World, call: Call, p: string)
  {
    match call
    case CallAdd(input, freshId, now) =>
      input.path != p && SizesFit(input) &&
      forall e :: e in w.sess.entries && e.name == AddedName(id, w.sess, input, freshId, now) ==> !OnPath(e, p)
    case CallDropChange(changeId) => forall e :: e in w.sess.entries && OnPath(e, p) ==> !NamedBy(e, changeId)
    case CallDropPath(path) => path != p
    case CallCommit =>
      var files := Ready(cfg, w.disk, w.sess);
      files.Some? ==> !Among(files.value, Reach(cfg, w.disk, files.value), p)
    case Elsewhere(action) => BytesAt(Store.Step(cfg, w.disk, action).files, p) == BytesAt(w.disk.files, p)
    case _ => true
  }

  function AddedName(id: string, s: Sess, input: StagedChange, freshId: string, now: string): string
  {
    FileName(|s.entries| + 1, FilledIn(input, id, freshId, now).changeId)
  }

  ghost predicate SparesAll(cfg: Config, id: string, w: World, calls: seq<Call>, p: string)
  {
    calls == [] ||
    (SparesAll(cfg, id, w, calls[..|calls| - 1], p) &&
     Spares(cfg, id, Run(cfg, id, w, calls[..|calls| - 1]), calls[|calls| - 1], p))
  }

  // ----- Adding --------------------------------------------------------------------------

  lemma {:induction false} LoadConcat(a: seq<Entry>, b: seq<Entry>)
    ensures LoadAll(a + b) == LoadAll(a) + LoadAll(b)
  {
    hide DeserializedChange;
  }

  /** Change files put in place of others, neither of them of path `p`. */
  lemma SwappedOthers(a: seq<Entry>, x: seq<Entry>, y: seq<Entry>, b: seq<Entry>, p: string)
    requires ChangesFor(LoadAll(x), p) == [] && ChangesFor(LoadAll(y), p) == []
    ensures ChangesFor(LoadAll(a + x + b), p) == ChangesFor(LoadAll(a + y + b), p)
  {
    hide LoadAll, ChangesFor;
    LoadConcat(a + x, b);
    LoadConcat(a, x);
    LoadConcat(a + y, b);
    LoadConcat(a, y);
    ChangesForConcat(LoadAll(a) + LoadAll(x), LoadAll(b), p);
    ChangesForConcat(LoadAll(a), LoadAll(x), p);
    ChangesForConcat(LoadAll(a) + LoadAll(y), LoadAll(b), p);
    ChangesForConcat(LoadAll(a), LoadAll(y), p);
  }

  lemma OtherEntry(e: Entry, p: string)
    requires !OnPath(e, p)
    ensures ChangesFor(LoadAll([e]), p) == []
  {
    hide DeserializedChange;
    assert LoadAll([e])[..0] == [];
  }

  lemma NoEntry(p: string)
    ensures ChangesFor(LoadAll([]), p) == []
  {
  }

  /** A change file put among the others takes the place of one of the same name, if any. */
  lemma PutParts(entries: seq<Entry>, e: Entry) returns (a: seq<Entry>, x: seq<Entry>, b: seq<Entry>)
    ensures entries == a + x + b && PutEntry(entries, e) == a + [e] + b
    ensures x == [] || (|x| == 1 && x[0] in entries && x[0].name == e.name)
  {
    var k := Position(NamesOf(entries), e.name);
    if Names.Holds(NamesOf(entries), e.name) {
      a, x, b := entries[..k], [entries[k]], entries[k + 1..];
    } else {
      a, x, b := entries[..k], [], entries[k..];
    }
  }

  lemma PutOther(entries: seq<Entry>, e: Entry, p: string)
    requires !OnPath(e, p) && forall o :: o in entries && o.name == e.name ==> !OnPath(o, p)
    ensures ChangesFor(LoadAll(PutEntry(entries, e)), p) == ChangesFor(LoadAll(entries), p)
  {
    hide LoadAll, ChangesFor, OnPath, PutEntry;
    var a, x, b := PutParts(entries, e);
    OtherEntry(e, p);
    if x == [] {
      NoEntry(p);
    } else {
      assert x == [x[0]];
      OtherEntry(x[0], p);
    }
    SwappedOthers(a, x, [e], b, p);
  }

  lemma AddSpares(cfg: Config, id: string, w: World, call: Call, p: string)
    requires call.CallAdd? && Spares(cfg, id, w, call, p)
    ensures SameEdits(w.sess, Step(cfg, id, w, call).sess, p)
  {
    hide PutEntry, FileName, LoadAll, ChangesFor, Replay, SizesFit, SerializedChange, DeserializedChange;
    var s := w.sess;
    var c := FilledIn(call.input, id, call.freshId, call.now);
    FilledFits(call.input, id, call.freshId, call.now);
    ReloadKeepsEdit(c);
    var e := Entry(FileName(|s.entries| + 1, c.changeId), SerializedChange(c));
    PutOther(s.entries, e, p);
    SameEditsSelf(s, Step(cfg, id, w, call).sess, p);
  }

  lemma FilledFits(input: StagedChange, id: string, freshId: string, now: string)
    ensures FilledIn(input, id, freshId, now).path == input.path
    ensures SizesFit(input) ==> SizesFit(FilledIn(input, id, freshId, now))
  {
  }

  // ----- Dropping ------------------------------------------------------------------------

  lemma LastEntry(front: seq<Entry>, last: Entry, p: string)
    ensures ChangesFor(LoadAll(front + [last]), p) == ChangesFor(LoadAll(front), p) + ChangesFor(LoadAll([last]), p)
  {
    hide LoadAll, ChangesFor;
    LoadConcat(front, [last]);
    ChangesForConcat(LoadAll(front), LoadAll([last]), p);
  }

  lemma {:induction false} DropIdSpares(entries: seq<Entry>, id: string, p: string)
    requires forall e :: e in entries && OnPath(e, p) ==> !NamedBy(e, id)
    ensures ChangesFor(LoadAll(WithoutId(entries, id)), p) == ChangesFor(LoadAll(entries), p)
  {
    hide LoadAll, ChangesFor, OnPath, NamedBy, DeserializedChange;
    if entries != [] {
      var front, last := entries[..|entries| - 1], entries[|entries| - 1];
      assert last in entries && forall e :: e in front ==> e in entries;
      DropIdSpares(front, id, p);
      assert entries == front + [last];
      LastEntry(front, last, p);
      LastEntry(WithoutId(front, id), last, p);
      if NamedBy(last, id) { OtherEntry(last, p); }
    }
  }

  lemma DropIdSparesSession(s: Sess, id: string, p: string)
    requires forall e :: e in s.entries && OnPath(e, p) ==> !NamedBy(e, id)
    ensures Mine(DoDropChange(s, id).0, p) == Mine(s, p)
  {
    hide LoadAll, ChangesFor, OnPath, NamedBy, WithoutId;
    DropIdSpares(s.entries, id, p);
  }

  lemma DropPathSparesSession(s: Sess, path: string, p: string)
    requires path != p
    ensures Mine(DoDropPath(s, path).0, p) == Mine(s, p)
  {
    hide LoadAll, ChangesFor, WithoutFile;
    DropPathLoads(s.entries, path);
    DropLeavesOthers(LoadAll(s.entries), path, p);
  }

  lemma DropSpares(cfg: Config, id: string, w: World, call: Call, p: string)
    requires (call.CallDropChange? || call.CallDropPath?) && Spares(cfg, id, w, call, p)
    ensures SameEdits(w.sess, Step(cfg, id, w, call).sess, p)
  {
    hide Mine, OnPath, NamedBy, DoDropChange, DoDropPath, SameEdits;
    if call.CallDropChange? {
      DropIdSparesSession(w.sess, call.changeId, p);
    } else {
      DropPathSparesSession(w.sess, call.path, p);
    }
    SameEditsSelf(w.sess, Step(cfg, id, w, call).sess, p);
  }

  // ----- Rebasing ------------------------------------------------------------------------

  /** The rebased changes of a path replay as the staged ones do, on any content. */
  lemma RebaseSpares(cfg: Config, d: Disk, s: Sess, p: string)
    ensures SameEdits(s, DoRebase(cfg, d, s).0, p)
  {
    hide Check, LoadAll, ChangesFor, PathsOf, Replay, ProbeOf, DuePaths, DoRebase, RestageAll, SizesFit;
    if !DoRebase(cfg, d, s).1 {
      RefusedRebase(cfg, d, s);
      SameEditsSelf(s, s, p);
    } else {
      var changes, probe := LoadAll(s.entries), ProbeOf(cfg, d.files);
      RebasedEntries(cfg, d, s);
      RestagePerFile(changes, DuePaths(changes, probe), probe, p);
      OwnPath(changes, p);
      forall content ensures Replay(Mine(s, p), content) == Replay(Mine(DoRebase(cfg, d, s).0, p), content) {
        RestageReplays(ChangesFor(changes, p), DuePaths(changes, probe), probe, content);
      }
    }
  }

  // ----- Committing and previewing -------------------------------------------------------

  lemma {:induction false} PreviewsSound(cfg: Config, d: Disk, files: seq<PlannedFile>, n: nat)
    requires n <= |files| && Sound(d)
    ensures Sound(PreviewFirst(cfg, d, files, n).disk)
  {
    hide DoPreview, Sound, Analyzed, GetLines;
    if n > 0 {
      PreviewsSound(cfg, d, files, n - 1);
      var f := files[n - 1];
      SoundAfterPreview(cfg, PreviewFirst(cfg, d, files, n - 1).disk, f.path, f.finalContent, NO_BASE);
    }
  }

  lemma CommitSpares(cfg: Config, d: Disk, s: Sess, p: string)
    requires Sound(d)
    ensures var e := DoCommit(cfg, d, s).0;
            Sound(e) && (Ready(cfg, d, s).None? ==> e == d) &&
            (Ready(cfg, d, s).Some? ==>
              var files := Ready(cfg, d, s).value;
              !Among(files, Reach(cfg, d, files), p) ==> BytesAt(e.files, p) == BytesAt(d.files, p))
  {
    hide Ready, CommitAll, Sound, WroteFirst, SavedFirst, CameTo, PlanOf, LoadAll, BytesAt, ProbeOf, Reach, DistinctPaths, Among, WritableAt;
    if Ready(cfg, d, s).Some? {
      var files := Ready(cfg, d, s).value;
      ReadyIsPlan(cfg, d, s);
      PlanPathsDistinct(LoadAll(s.entries), Contents(ProbeOf(cfg, d.files)));
      CommitReach(cfg, d, files);
      WroteOthers(cfg, d.files, CommitAll(cfg, d, files).disk.files, files, Reach(cfg, d, files));
    }
  }

  lemma CommitEntries(cfg: Config, d: Disk, s: Sess)
    ensures DoCommit(cfg, d, s).1.entries == s.entries && DoPreviewAll(cfg, d, s).1.entries == s.entries
  {
    hide Ready, CommitAll, PreviewFirst;
  }

  lemma PreviewSpares(cfg: Config, d: Disk, s: Sess)
    requires Sound(d)
    ensures var e := DoPreviewAll(cfg, d, s).0; Sound(e) && e.files == d.files
  {
    hide Ready, PreviewFirst, Sound;
    if Ready(cfg, d, s).Some? {
      var files := Ready(cfg, d, s).value;
      PreviewsKeepFiles(cfg, d, files, |files|);
      PreviewsSound(cfg, d, files, |files|);
    }
  }

  // ----- Whole runs ----------------------------------------------------------------------

  lemma SparedStep(cfg: Config, id: string, w: World, call: Call, p: string)
    requires Sound(w.disk)
    ensures Sound(Step(cfg, id, w, call).disk)
    ensures Spares(cfg, id, w, call, p) ==>
              var v := Step(cfg, id, w, call);
              BytesAt(v.disk.files, p) == BytesAt(w.disk.files, p) && SameEdits(w.sess, v.sess, p)
  {
    hide Sound, SameEdits, BytesAt, Store.Step, DoAdd, DoCommit, DoPreviewAll, DoDropChange, DoDropPath, DoRebase,
      Ready, Reach, Among, AddedName, NamedBy, OnPath, Mine;
    var v := Step(cfg, id, w, call);
    match call
    case CallAdd(input, freshId, now) =>
      if Spares(cfg, id, w, call, p) { AddSpares(cfg, id, w, call, p); }
    case CallDropChange(changeId) =>
      if Spares(cfg, id, w, call, p) { DropSpares(cfg, id, w, call, p); }
    case CallDropPath(path) =>
      if Spares(cfg, id, w, call, p) { DropSpares(cfg, id, w, call, p); }
    case CallRebase => RebaseSpares(cfg, w.disk, w.sess, p);
    case CallCommit =>
      CommitSpares(cfg, w.disk, w.sess, p);
      CommitEntries(cfg, w.disk, w.sess);
      SameEntries(w.sess, v.sess, p);
    case CallPreview =>
      PreviewSpares(cfg, w.disk, w.sess);
      CommitEntries(cfg, w.disk, w.sess);
      SameEntries(w.sess, v.sess, p);
    case CallBegin => SameEntries(w.sess, v.sess, p);
    case CallAbort => SameEntries(w.sess, v.sess, p);
    case Elsewhere(action) =>
      Store.StepFollows(cfg, w.disk, action);
      SameEntries(w.sess, v.sess, p);
  }

  lemma SameEntries(s: Sess, t: Sess, p: string)
    requires s.entries == t.entries
    ensures SameEdits(s, t, p)
  {
    hide LoadAll, ChangesFor, Replay;
    SameEditsSelf(s, t, p);
  }

  /** A run that leaves a path alone, whatever else it does: the path has its bytes, and the session
      stages the same edits of it. */
  lemma {:induction false} SparedRun(cfg: Config, id: string, w: World, calls: seq<Call>, p: string)
    requires Sound(w.disk)
    ensures Sound(Run(cfg, id, w, calls).disk)
    ensures SparesAll(cfg, id, w, calls, p) ==>
              var v := Run(cfg, id, w, calls);
              BytesAt(v.disk.files, p) == BytesAt(w.disk.files, p) && SameEdits(w.sess, v.sess, p)
  {
    hide Sound, SameEdits, BytesAt, Step, Spares;
    if calls == [] {
      SameEntries(w.sess, w.sess, p);
    } else {
      var front, last := calls[..|calls| - 1], calls[|calls| - 1];
      SparedRun(cfg, id, w, front, p);
      SparedStep(cfg, id, Run(cfg, id, w, front), last, p);
      if SparesAll(cfg, id, w, calls, p) {
        SameEditsTransitive(w.sess, Run(cfg, id, w, front).sess, Run(cfg, id, w, calls).sess, p);
      }
    }
  }
}

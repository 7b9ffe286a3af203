/** What holds of sessions over all their runs, and of a commit and a rebase as a whole
    (session_service.cpp). */
module SessionRuns {
  import opened Text
  import opened FlatRecord
  import opened ChangeRecord
  import opened ChangeRoundTrip
  import opened Names
  import opened Plan
  import opened Recovery
  import opened TextLines
  import opened Diff
  import opened Encoding
  import opened PatchStore
  import Store = StoreRuns
  import opened Undo
  import opened Commit
  import opened Sessions

  /** A session and the disk it works on. */
  datatype World = World(disk: Disk, sess: Sess)

  /** The session calls, and anything else that happens to the disk in between. */
  datatype Call =
    CallBegin |
    CallAdd(input: StagedChange, freshId: string, now: string) |
    CallPreview | CallCommit | CallAbort |
    CallDropChange(changeId: string) | CallDropPath(path: string) |
    CallRebase |
    Elsewhere(action: Store.Action)

  ghost function Step(cfg: Config, id: string, w: World, call: Call): World
  {
    match call
    case CallBegin => w.(sess := DoBegin(id, w.sess).0)
    case CallAdd(input, freshId, now) => w.(sess := DoAdd(id, w.sess, input, freshId, now).0)
    case CallPreview => var (d, s, _) := DoPreviewAll(cfg, w.disk, w.sess); World(d, s)
    case CallCommit => var (d, s, _) := DoCommit(cfg, w.disk, w.sess); World(d, s)
    case CallAbort => w.(sess := DoAbort(w.sess).0)
    case CallDropChange(changeId) => w.(sess := DoDropChange(w.sess, changeId).0)
    case CallDropPath(path) => w.(sess := DoDropPath(w.sess, path).0)
    case CallRebase => w.(sess := DoRebase(cfg, w.disk, w.sess).0)
    case Elsewhere(action) => w.(disk := Store.Step(cfg, w.disk, action))
  }

  ghost function Run(cfg: Config, id: string, w: World, calls: seq<Call>): World
  {
    if calls == [] then w
    else Step(cfg, id, Run(cfg, id, w, calls[..|calls| - 1]), calls[|calls| - 1])
  }

  // ----- The life of a session -----------------------------------------------------------

  /** What every session keeps between calls: a created session has no changes, a staged, previewed
      or half-written one has some, and the states in the middle of a commit are never left behind. */
  ghost predicate WellKept(s: Sess)
  {
    (!s.begun ==> s.stage == Created) &&
    (s.stage == Created ==> s.entries == []) &&
    (s.stage == Staging || s.stage == InPreview || s.stage == Writing ==> s.entries != []) &&
    s.stage != Validating && s.stage != Verifying
  }

  lemma PutIsSome(entries: seq<Entry>, e: Entry)
    ensures PutEntry(entries, e) != []
  {
    hide Position;
  }

  lemma NoChangesNoFiles(cfg: Config, d: Disk, s: Sess)
    ensures s.entries == [] && Ready(cfg, d, s).Some? ==> Ready(cfg, d, s).value == []
  {
    hide Check, ProbeOf;
    if s.entries == [] { assert LoadAll(s.entries) == []; }
  }

  lemma NothingToCommit(cfg: Config, d: Disk)
    ensures !CommitAll(cfg, d, []).failed
  {
  }

  lemma ReadyIsActive(cfg: Config, d: Disk, s: Sess)
    ensures Ready(cfg, d, s).Some? ==> Active(s)
  {
    hide Check, PlanOf, LoadAll;
  }

  lemma NothingDue(entries: seq<Entry>, probe: Probe)
    ensures entries == [] ==> DuePaths(LoadAll(entries), probe) == {}
  {
    if entries == [] { assert LoadAll(entries) == []; }
  }

  lemma AddKeeps(id: string, s: Sess, input: StagedChange, freshId: string, now: string)
    requires WellKept(s)
    ensures WellKept(DoAdd(id, s, input, freshId, now).0)
  {
    hide PutEntry, FileName, FilledIn, SerializedChange;
    var c := FilledIn(input, id, freshId, now);
    PutIsSome(s.entries, Entry(FileName(|s.entries| + 1, c.changeId), SerializedChange(c)));
  }

  lemma PreviewKeeps(cfg: Config, d: Disk, s: Sess)
    requires WellKept(s)
    ensures WellKept(DoPreviewAll(cfg, d, s).1)
  {
    hide Ready, PreviewFirst;
    NoChangesNoFiles(cfg, d, s);
    ReadyIsActive(cfg, d, s);
  }

  lemma CommitKeeps(cfg: Config, d: Disk, s: Sess)
    requires WellKept(s)
    ensures WellKept(DoCommit(cfg, d, s).1)
  {
    hide Ready, CommitAll;
    NoChangesNoFiles(cfg, d, s);
    NothingToCommit(cfg, d);
    ReadyIsActive(cfg, d, s);
  }

  lemma DropKeeps(s: Sess, changeId: string, path: string)
    requires WellKept(s)
    ensures WellKept(DoDropChange(s, changeId).0) && WellKept(DoDropPath(s, path).0)
  {
    hide WithoutId, WithoutFile;
  }

  lemma RebaseKeeps(cfg: Config, d: Disk, s: Sess)
    requires WellKept(s)
    ensures WellKept(DoRebase(cfg, d, s).0)
  {
    hide Check, LoadAll, DuePaths, RestageEntries, ProbeOf;
    var need := DuePaths(LoadAll(s.entries), ProbeOf(cfg, d.files));
    NothingDue(s.entries, ProbeOf(cfg, d.files));
    assert |RestageEntries(s.entries, need, ProbeOf(cfg, d.files))| == |s.entries|;
  }

  lemma StepKeeps(cfg: Config, id: string, w: World, call: Call)
    requires WellKept(w.sess)
    ensures WellKept(Step(cfg, id, w, call).sess)
  {
    hide DoAdd, DoPreviewAll, DoCommit, DoDropChange, DoDropPath, DoRebase;
    match call
    case CallBegin =>
    case CallAdd(input, freshId, now) => AddKeeps(id, w.sess, input, freshId, now);
    case CallPreview => PreviewKeeps(cfg, w.disk, w.sess);
    case CallCommit => CommitKeeps(cfg, w.disk, w.sess);
    case CallAbort =>
    case CallDropChange(changeId) => DropKeeps(w.sess, changeId, "");
    case CallDropPath(path) => DropKeeps(w.sess, "", path);
    case CallRebase => RebaseKeeps(cfg, w.disk, w.sess);
    case Elsewhere(action) =>
  }

  /** A fresh session is well kept after any run of calls, whatever else happens to the disk. */
  lemma {:induction false} SessionLife(cfg: Config, id: string, w: World, calls: seq<Call>)
    requires WellKept(w.sess)
    ensures WellKept(Run(cfg, id, w, calls).sess)
  {
    hide Step, WellKept;
    if calls != [] {
      SessionLife(cfg, id, w, calls[..|calls| - 1]);
      StepKeeps(cfg, id, Run(cfg, id, w, calls[..|calls| - 1]), calls[|calls| - 1]);
    }
  }

  predicate Closed(s: Sess) { s.begun && (s.stage == Done || s.stage == Aborted) }

  /** The calls that are not the session's own. */
  function OutsideOnly(calls: seq<Call>): seq<Store.Action>
  {
    if calls == [] then []
    else
      var front, last := OutsideOnly(calls[..|calls| - 1]), calls[|calls| - 1];
      if last.Elsewhere? then front + [last.action] else front
  }

  lemma ClosedStep(cfg: Config, id: string, w: World, call: Call)
    requires Closed(w.sess)
    ensures var v := Step(cfg, id, w, call);
            Closed(v.sess) && v.sess.entries == w.sess.entries && v.sess.record == w.sess.record &&
            (w.sess.stage == Aborted ==> v.sess.stage == Aborted) &&
            v.disk == if call.Elsewhere? then Store.Step(cfg, w.disk, call.action) else w.disk
  {
    hide Store.Step, Check, PlanOf, LoadAll;
  }

  /** Committed and aborted sessions are closed for good, and an aborted one stays aborted: no session
      call changes the staged changes, the commit record or anything on the disk any more. */
  lemma {:induction false} ClosedForGood(cfg: Config, id: string, w: World, calls: seq<Call>)
    requires Closed(w.sess)
    ensures var v := Run(cfg, id, w, calls);
            Closed(v.sess) && v.sess.entries == w.sess.entries && v.sess.record == w.sess.record &&
            (w.sess.stage == Aborted ==> v.sess.stage == Aborted) &&
            v.disk == Store.After(cfg, w.disk, OutsideOnly(calls))
  {
    hide Step, Store.Step, Closed;
    if calls != [] {
      var front, last := calls[..|calls| - 1], calls[|calls| - 1];
      ClosedForGood(cfg, id, w, front);
      ClosedStep(cfg, id, Run(cfg, id, w, front), last);
      if last.Elsewhere? {
        var o := OutsideOnly(front);
        assert (o + [last.action])[..|o|] == o;
      }
    }
  }

  lemma {:induction false} PreviewsKeepFiles(cfg: Config, d: Disk, files: seq<PlannedFile>, n: nat)
    requires n <= |files|
    ensures PreviewFirst(cfg, d, files, n).disk.files == d.files
  {
    hide DoPreview, Analyzed, GetLines;
    if n > 0 {
      PreviewsKeepFiles(cfg, d, files, n - 1);
      var f := files[n - 1];
      Store.PreviewFewer(cfg, PreviewFirst(cfg, d, files, n - 1).disk, f.path, f.finalContent, NO_BASE);
    }
  }

  /** Of all session calls only a commit changes workspace files, and only that of a ready session. */
  lemma OnlyCommitWrites(cfg: Config, id: string, w: World, call: Call)
    requires !call.Elsewhere?
    requires call.CallCommit? ==> Ready(cfg, w.disk, w.sess).None?
    ensures Step(cfg, id, w, call).disk.files == w.disk.files
  {
    hide Ready, PreviewFirst, CommitAll, DoBegin, DoAdd, DoAbort, DoDropChange, DoDropPath, DoRebase;
    if call.CallPreview? && Ready(cfg, w.disk, w.sess).Some? {
      var files := Ready(cfg, w.disk, w.sess).value;
      PreviewsKeepFiles(cfg, w.disk, files, |files|);
    }
  }

  // ----- A commit as a whole -------------------------------------------------------------

  lemma PlanPathsDistinct(changes: seq<StagedChange>, read: Reader)
    requires PlanOf(changes, read).Some?
    ensures DistinctPaths(PlanOf(changes, read).value)
  {
    hide PlanOf, ChangesFor, Replay;
    PlanIsPerFile(changes, read);
    var files := PlanOf(changes, read).value;
    forall i, j | 0 <= i < j < |files| ensures files[i].path != files[j].path {
      LessIrreflexive(files[j].path);
    }
  }

  lemma ReadyIsPlan(cfg: Config, d: Disk, s: Sess)
    requires Ready(cfg, d, s).Some?
    ensures Ready(cfg, d, s) == PlanOf(LoadAll(s.entries), Contents(ProbeOf(cfg, d.files)))
  {
    hide Check, PlanOf, LoadAll;
  }

  /** A commit of a ready session succeeds exactly when each file of its plan can be committed: its
      path is allowed, what is there is text, its preview does not expire on the way, and its new
      content holds no NUL; the session then records what was reported.  If it stops, the files before the first that cannot be committed are
      written and backed up, and no other, except that a NUL stops the commit only after its file
      is written. */
  lemma CommitStops(cfg: Config, d: Disk, s: Sess)
    requires Sound(d) && Ready(cfg, d, s).Some?
    ensures var files := Ready(cfg, d, s).value;
            (DoCommit(cfg, d, s).2.Some? <==> forall i :: 0 <= i < |files| ==> Committable(cfg, d, files, i)) &&
            (DoCommit(cfg, d, s).2.None? ==> DoCommit(cfg, d, s).1 == s.(stage := Writing)) &&
            var r := CommitAll(cfg, d, files);
            (DoCommit(cfg, d, s).2.Some? ==>
              DoCommit(cfg, d, s).2 == Some(r.done) && DoCommit(cfg, d, s).1 == s.(stage := Done, record := r.done)) &&
            CameTo(cfg, d, files, |files|, r) && DoCommit(cfg, d, s).0 == r.disk
  {
    hide Ready, CommitFirst, Sound, Committable, WrittenBy, WroteFirst, SavedFirst, ClockAt, DistinctPaths, PlanOf, LoadAll;
    ReadyIsPlan(cfg, d, s);
    PlanPathsDistinct(LoadAll(s.entries), Contents(ProbeOf(cfg, d.files)));
    CommitComes(cfg, d, Ready(cfg, d, s).value, |Ready(cfg, d, s).value|);
  }

  lemma SeenContent(cfg: Config, files: map<string, File>, path: string)
    ensures Contents(ProbeOf(cfg, files))(path) ==
            if cfg.verdict(path) == Outside then None else Some(BytesAt(files, path).GetOr(""))
  {
  }

  /** A successful commit gives each staged file the replay of its own staged changes, laid out with the
      line ends and the byte order mark of the file it replaces, and leaves every other file alone. */
  lemma CommitWritesPlan(cfg: Config, d: Disk, s: Sess, p: string)
    requires Sound(d) && DoCommit(cfg, d, s).2.Some?
    ensures var mine, was, now := ChangesFor(LoadAll(s.entries), p), BytesAt(d.files, p), BytesAt(DoCommit(cfg, d, s).0.files, p);
            if mine == [] then now == was
            else
              ReadState(cfg, d.files, p).Some? && Replay(mine, was.GetOr("")).Some? &&
              now == Some(Encode(Replay(mine, was.GetOr("")).value, ReadState(cfg, d.files, p).value.format))
  {
    hide Ready, CommitFirst, Sound, Committable, SavedFirst, ClockAt, PlanOf, LoadAll, ReadState, Encode, Replay, ChangesFor, BytesAt, ProbeOf;
    var changes, read := LoadAll(s.entries), Contents(ProbeOf(cfg, d.files));
    CommitReady(cfg, d, s);
    ReadyIsPlan(cfg, d, s);
    CommitStops(cfg, d, s);
    PlanIsPerFile(changes, read);
    var files := Ready(cfg, d, s).value;
    if ChangesFor(changes, p) != [] {
      var i :| 0 <= i < |files| && files[i].path == p;
      SeenContent(cfg, d.files, p);
    }
  }

  lemma CommitReady(cfg: Config, d: Disk, s: Sess)
    ensures DoCommit(cfg, d, s).2.Some? ==>
              Ready(cfg, d, s).Some? && !CommitAll(cfg, d, Ready(cfg, d, s).value).failed
  {
    hide Ready, CommitAll;
  }

  /** A content can be committed to a path: its path is allowed, what is there is text, its changes
      replay, and their result holds no NUL. */
  ghost predicate Fits(cfg: Config, files: map<string, File>, changes: seq<StagedChange>, p: string)
  {
    var next := Replay(changes, BytesAt(files, p).GetOr(""));
    cfg.verdict(p) == Allowed && ReadState(cfg, files, p).Some? && next.Some? && '\0' !in next.value
  }

  /** No preview of a commit of n files expires on the way. */
  ghost predicate InTimeFor(cfg: Config, clock: nat, n: int)
  {
    forall i :: 0 <= i < n ==> InTime(cfg, TickAt(cfg, ClockAt(cfg, clock, 2 * i)))
  }

  lemma PlannedFits(cfg: Config, d: Disk, changes: seq<StagedChange>, i: nat)
    requires PlanOf(changes, Contents(ProbeOf(cfg, d.files))).Some?
    requires i < |PlanOf(changes, Contents(ProbeOf(cfg, d.files))).value|
    ensures var files := PlanOf(changes, Contents(ProbeOf(cfg, d.files))).value;
            ChangesFor(changes, files[i].path) != [] &&
            Replay(ChangesFor(changes, files[i].path), BytesAt(d.files, files[i].path).GetOr("")) == Some(files[i].finalContent) &&
            (Committable(cfg, d, files, i) <==>
             Fits(cfg, d.files, ChangesFor(changes, files[i].path), files[i].path) &&
             InTime(cfg, TickAt(cfg, ClockAt(cfg, d.clock, 2 * i))))
  {
    hide PlanOf, Replay, ChangesFor, ReadState, InTime, BytesAt, ClockAt, ProbeOf;
    var files := PlanOf(changes, Contents(ProbeOf(cfg, d.files))).value;
    PlanIsPerFile(changes, Contents(ProbeOf(cfg, d.files)));
    SeenContent(cfg, d.files, files[i].path);
  }

  lemma PlanCount(changes: seq<StagedChange>, read: Reader)
    ensures PlanOf(changes, read).Some? ==> |PlanOf(changes, read).value| == |PathsOf(changes)|
  {
    hide PathsOf, Replays, PlannedFor;
  }

  ghost predicate AllFit(cfg: Config, d: Disk, changes: seq<StagedChange>)
  {
    forall p :: ChangesFor(changes, p) != [] ==> Fits(cfg, d.files, ChangesFor(changes, p), p)
  }

  lemma PlanFits(cfg: Config, d: Disk, changes: seq<StagedChange>)
    requires PlanOf(changes, Contents(ProbeOf(cfg, d.files))).Some?
    ensures var files := PlanOf(changes, Contents(ProbeOf(cfg, d.files))).value;
            (forall i :: 0 <= i < |files| ==> Committable(cfg, d, files, i)) <==>
            AllFit(cfg, d, changes) && InTimeFor(cfg, d.clock, |files|)
  {
    hide Committable, Fits, PlanOf, Replay, ChangesFor, ProbeOf, InTime, ClockAt;
    PlanIsPerFile(changes, Contents(ProbeOf(cfg, d.files)));
    var files := PlanOf(changes, Contents(ProbeOf(cfg, d.files))).value;
    forall i | 0 <= i < |files|
      ensures ChangesFor(changes, files[i].path) != []
      ensures Committable(cfg, d, files, i) <==>
              Fits(cfg, d.files, ChangesFor(changes, files[i].path), files[i].path) &&
              InTime(cfg, TickAt(cfg, ClockAt(cfg, d.clock, 2 * i)))
    {
      PlannedFits(cfg, d, changes, i);
    }
    if forall i :: 0 <= i < |files| ==> Committable(cfg, d, files, i) {
      forall p | ChangesFor(changes, p) != [] ensures Fits(cfg, d.files, ChangesFor(changes, p), p) {
        var i :| 0 <= i < |files| && files[i].path == p;
        assert Committable(cfg, d, files, i);
      }
    }
  }

  /** A commit of a session that its check does not hold back goes through exactly when each staged
      file can be committed and no preview expires on the way. */
  lemma CommitFits(cfg: Config, d: Disk, s: Sess)
    requires Sound(d) && Ready(cfg, d, s) == PlanOf(LoadAll(s.entries), Contents(ProbeOf(cfg, d.files)))
    ensures DoCommit(cfg, d, s).2.Some? <==>
            AllFit(cfg, d, LoadAll(s.entries)) && InTimeFor(cfg, d.clock, |PathsOf(LoadAll(s.entries))|)
  {
    hide Ready, CommitAll, Sound, Committable, PlanOf, LoadAll, ProbeOf, CameTo, DoCommit, PathsOf, InTimeFor, AllFit;
    var changes, read := LoadAll(s.entries), Contents(ProbeOf(cfg, d.files));
    PlanCount(changes, read);
    CommitReady(cfg, d, s);
    if PlanOf(changes, read).Some? {
      CommitStops(cfg, d, s);
      PlanFits(cfg, d, changes);
    } else {
      NoPlanNoFit(cfg, d, changes);
    }
  }

  /** How the session sees a file: its bytes, their hash, and the time it was written. */
  lemma SeenFile(cfg: Config, files: map<string, File>, path: string)
    ensures ProbeOf(cfg, files)(path) ==
            if cfg.verdict(path) == Outside then None
            else Some(Fingerprint(BytesAt(files, path).GetOr(""), cfg.hash(BytesAt(files, path).GetOr("")), ShownTime(cfg, files, path)))
  {
  }

  function ShownTime(cfg: Config, files: map<string, File>, path: string): string
  {
    if path in files then cfg.tickText(files[path].ticks) else "missing"
  }

  /** The file has the hash and the write time that the change was staged on, as far as they were recorded. */
  predicate OnItsBase(cfg: Config, files: map<string, File>, c: StagedChange)
  {
    c.baseHash in {"", cfg.hash(BytesAt(files, c.path).GetOr(""))} && c.baseMtime in {"", ShownTime(cfg, files, c.path)}
  }

  /** A session is ready exactly when it is active and each staged file is in the workspace, is on the base of
      its first change, and takes its changes one after another. */
  lemma ReadyIsExact(cfg: Config, d: Disk, s: Sess)
    ensures Ready(cfg, d, s).Some? <==>
            Active(s) &&
            forall p :: ChangesFor(LoadAll(s.entries), p) != [] ==>
              var mine := ChangesFor(LoadAll(s.entries), p);
              cfg.verdict(p) != Outside && OnItsBase(cfg, d.files, mine[0]) && Replay(mine, BytesAt(d.files, p).GetOr("")).Some?
  {
    hide LoadAll, ChangesFor, PlanOf, ProbeOf, Replay, Check, Active, OnItsBase, BaseShown, Replays;
    var changes, probe := LoadAll(s.entries), ProbeOf(cfg, d.files);
    CleanIsExact(changes, probe);
    PlanIsPerFile(changes, Contents(probe));
    forall p | ChangesFor(changes, p) != []
      ensures probe(p).Some? <==> cfg.verdict(p) != Outside
      ensures probe(p).Some? ==>
                (BaseShown(ChangesFor(changes, p)[0], probe(p).value) <==> OnItsBase(cfg, d.files, ChangesFor(changes, p)[0])) &&
                (Replays(changes, Contents(probe), p) <==> Replay(ChangesFor(changes, p), BytesAt(d.files, p).GetOr("")).Some?)
    {
      FileSeen(cfg, d.files, changes, p);
    }
  }

  lemma FileSeen(cfg: Config, files: map<string, File>, changes: seq<StagedChange>, p: string)
    requires ChangesFor(changes, p) != []
    ensures var probe, mine := ProbeOf(cfg, files), ChangesFor(changes, p);
            (probe(p).Some? <==> cfg.verdict(p) != Outside) &&
            (probe(p).Some? ==>
              (BaseShown(mine[0], probe(p).value) <==> OnItsBase(cfg, files, mine[0])) &&
              (Replays(changes, Contents(probe), p) <==> Replay(mine, BytesAt(files, p).GetOr("")).Some?))
  {
    hide ChangesFor, ProbeOf, Replay, BytesAt, ShownTime;
    OwnPath(changes, p);
    SeenFile(cfg, files, p);
  }

  /** A session that is not ready refuses to preview and to commit, and nothing changes. */
  lemma NotReadyRefused(cfg: Config, d: Disk, s: Sess)
    requires Ready(cfg, d, s).None?
    ensures DoCommit(cfg, d, s) == (d, s, None) && DoPreviewAll(cfg, d, s) == (d, s, None)
  {
    hide Ready;
  }

  /** No lost update: a file that was written since its first change was staged, to other bytes by their hash
      or at another time as it is shown, holds up the session; if that change replaces the whole file
      and expected other content, or replaces a range whose lines are others by now, a rebase does not help. */
  lemma ForeignEditIsKept(cfg: Config, d: Disk, s: Sess, p: string)
    requires ChangesFor(LoadAll(s.entries), p) != [] && !OnItsBase(cfg, d.files, ChangesFor(LoadAll(s.entries), p)[0])
    ensures DoCommit(cfg, d, s) == (d, s, None) && DoPreviewAll(cfg, d, s) == (d, s, None)
    ensures var c, content := ChangesFor(LoadAll(s.entries), p)[0], BytesAt(d.files, p).GetOr("");
            Overtaken(c, content) ==> DoRebase(cfg, d, s) == (s, false)
  {
    hide LoadAll, ChangesFor, ProbeOf, Replay, Check, BytesAt, Active, ShownTime, Ready, DoRebase, StatusOf, Overtaken, PathsOf, DoCommit, DoPreviewAll;
    var mine := ChangesFor(LoadAll(s.entries), p);
    ReadyIsExact(cfg, d, s);
    NotReadyRefused(cfg, d, s);
    SeenFile(cfg, d.files, p);
    OwnPath(LoadAll(s.entries), p);
    if Overtaken(mine[0], BytesAt(d.files, p).GetOr("")) {
      if ProbeOf(cfg, d.files)(p).Some? { ForeignEditConflicts(mine, ProbeOf(cfg, d.files)(p).value); }
      RefusedOnConflict(cfg, d, s, p);
    }
  }

  /** A rebase is refused exactly to an inactive session and to one whose check fails or finds a
      conflict; such a session is not ready either. */
  lemma RefusedRebase(cfg: Config, d: Disk, s: Sess)
    ensures !DoRebase(cfg, d, s).1 ==> DoRebase(cfg, d, s).0 == s && Ready(cfg, d, s).None?
  {
    hide Check, PlanOf, LoadAll, DuePaths, RestageEntries, ProbeOf;
  }

  lemma RefusedOnConflict(cfg: Config, d: Disk, s: Sess, p: string)
    requires ChangesFor(LoadAll(s.entries), p) != []
    requires ProbeOf(cfg, d.files)(p).Some? ==>
               StatusOf(ChangesFor(LoadAll(s.entries), p), ProbeOf(cfg, d.files)(p).value) == Conflict
    ensures DoRebase(cfg, d, s) == (s, false)
  {
    hide LoadAll, ChangesFor, ProbeOf, StatusOf, Check, PathsOf, Active, DoRebase;
    RefusedRebase(cfg, d, s);
    if DoRebase(cfg, d, s).1 {
      RebasedEntries(cfg, d, s);
      PathsSorted(LoadAll(s.entries));
      NoConflict(LoadAll(s.entries), ProbeOf(cfg, d.files), p);
    }
  }

  lemma NoPlanNoFit(cfg: Config, d: Disk, changes: seq<StagedChange>)
    requires PlanOf(changes, Contents(ProbeOf(cfg, d.files))).None?
    ensures !AllFit(cfg, d, changes)
  {
    hide PlanOf, Replay, ChangesFor, ReadState, BytesAt, ProbeOf;
    var read := Contents(ProbeOf(cfg, d.files));
    PlanIsPerFile(changes, read);
    var p :| ChangesFor(changes, p) != [] && !Replays(changes, read, p);
    SeenContent(cfg, d.files, p);
  }

  /** When a session is committed, in full: it is active; each staged file is on the base of its first change
      and can be committed; and no preview expires on the way. */
  lemma CommitIsExact(cfg: Config, d: Disk, s: Sess)
    requires Sound(d)
    ensures DoCommit(cfg, d, s).2.Some? <==>
            Active(s) && InTimeFor(cfg, d.clock, |PathsOf(LoadAll(s.entries))|) &&
            forall p :: ChangesFor(LoadAll(s.entries), p) != [] ==>
              var mine := ChangesFor(LoadAll(s.entries), p); OnItsBase(cfg, d.files, mine[0]) && Fits(cfg, d.files, mine, p)
  {
    hide LoadAll, ChangesFor, PathsOf, Ready, DoCommit, Sound, OnItsBase, Active, InTimeFor, ReadState, Replay, BytesAt;
    ReadyIsExact(cfg, d, s);
    CommitReady(cfg, d, s);
    if Ready(cfg, d, s).Some? {
      ReadyIsPlan(cfg, d, s);
      CommitFits(cfg, d, s);
    }
  }

  /** Each staged file of a commit that goes through. */
  lemma CommittedFits(cfg: Config, d: Disk, s: Sess, p: string)
    requires Sound(d) && DoCommit(cfg, d, s).2.Some? && ChangesFor(LoadAll(s.entries), p) != []
    ensures Fits(cfg, d.files, ChangesFor(LoadAll(s.entries), p), p)
  {
    hide Ready, CommitAll, Sound, Fits, PlanOf, LoadAll, ChangesFor, ProbeOf, DoCommit, InTimeFor, PathsOf;
    CommitReady(cfg, d, s);
    ReadyIsPlan(cfg, d, s);
    CommitFits(cfg, d, s);
  }

  // ----- A rebase as a whole -------------------------------------------------------------

  lemma {:induction false} RestagedLoads(entries: seq<Entry>, need: set<string>, probe: Probe)
    requires forall p :: p in need ==> probe(p).Some?
    ensures LoadAll(RestageEntries(entries, need, probe)) == RestageAll(LoadAll(entries), need, probe)
  {
    hide DeserializedChange, SerializedChange, Restaged;
    if entries != [] {
      var front, last := entries[..|entries| - 1], entries[|entries| - 1];
      RestagedLoads(front, need, probe);
      LoadSnoc(front, last);
      assert entries == front + [last];
      RestageLast(front, last, need, probe);
      RestageAllSnoc(LoadAll(front), DeserializedChange(last.text), need, probe);
    }
  }

  lemma LoadSnoc(front: seq<Entry>, last: Entry)
    ensures LoadAll(front + [last]) == LoadAll(front) + [DeserializedChange(last.text)]
  {
    hide DeserializedChange;
  }

  lemma RestageLast(front: seq<Entry>, last: Entry, need: set<string>, probe: Probe)
    requires forall p :: p in need ==> probe(p).Some?
    ensures var c := DeserializedChange(last.text);
            var text := if c.path in need then SerializedChange(Restaged(c, probe(c.path).value)) else last.text;
            LoadAll(RestageEntries(front + [last], need, probe)) ==
            LoadAll(RestageEntries(front, need, probe)) + [DeserializedChange(text)]
  {
    hide DeserializedChange, SerializedChange, Restaged, LoadAll;
    assert (front + [last])[..|front|] == front;
    var c := DeserializedChange(last.text);
    var text := if c.path in need then SerializedChange(Restaged(c, probe(c.path).value)) else last.text;
    LoadSnoc(RestageEntries(front, need, probe), last.(text := text));
  }

  lemma RestageAllSnoc(front: seq<StagedChange>, last: StagedChange, need: set<string>, probe: Probe)
    requires forall p :: p in need ==> probe(p).Some?
    ensures RestageAll(front + [last], need, probe) ==
            RestageAll(front, need, probe) +
            [if last.path in need then Reload(Restaged(last, probe(last.path).value)) else last]
  {
    hide Reload, Restaged;
    assert (front + [last])[..|front|] == front;
  }

  lemma SizeFits(text: string, key: string, fallback: nat)
    requires fallback < SIZE_LIMIT
    ensures GetSize(text, key, fallback) < SIZE_LIMIT
  {
  }

  lemma LoadedFits(text: string)
    ensures SizesFit(DeserializedChange(text))
  {
    hide GetSize, GetString, GetBool, RiskOf;
    SizeFits(text, "line_start", 0);
    SizeFits(text, "line_end", 0);
    SizeFits(text, "selector_occurrence", 1);
  }

  /** The changes a rebase leaves in a session's files. */
  lemma RebasedEntries(cfg: Config, d: Disk, s: Sess)
    requires DoRebase(cfg, d, s).1
    ensures LoadAll(DoRebase(cfg, d, s).0.entries) == Rebased(LoadAll(s.entries), ProbeOf(cfg, d.files))
    ensures Active(DoRebase(cfg, d, s).0)
    ensures var check := Check(LoadAll(s.entries), ProbeOf(cfg, d.files)); check.Some? && check.value.conflicts == 0
    ensures forall i :: 0 <= i < |LoadAll(s.entries)| ==> SizesFit(LoadAll(s.entries)[i])
  {
    hide Check, LoadAll, RestageEntries, RestageAll, ProbeOf, DuePaths, SizesFit, DeserializedChange;
    var changes, probe := LoadAll(s.entries), ProbeOf(cfg, d.files);
    forall i | 0 <= i < |changes| ensures SizesFit(changes[i]) {
      LoadedFits(s.entries[i].text);
    }
    RestagedLoads(s.entries, DuePaths(changes, probe), probe);
  }

  /** A rebase that goes through unblocks the session, disk unchanged: the next check finds every file
      clean, so the session is ready exactly when it has a plan; and it has one exactly when the files
      that were clean all along replay. */
  lemma RebaseUnblocks(cfg: Config, d: Disk, s: Sess)
    requires DoRebase(cfg, d, s).1
    ensures var changes, probe, next := LoadAll(s.entries), ProbeOf(cfg, d.files), DoRebase(cfg, d, s).0;
            Ready(cfg, d, next) == PlanOf(LoadAll(next.entries), Contents(probe)) &&
            (Ready(cfg, d, next).Some? <==>
             forall p :: p in PathsOf(changes) && p !in DuePaths(changes, probe) ==> Replays(changes, Contents(probe), p))
  {
    hide Check, PlanOf, LoadAll, PathsOf, ProbeOf, DuePaths, Replays, Contents, DoRebase, Rebased, SizesFit;
    var changes, probe := LoadAll(s.entries), ProbeOf(cfg, d.files);
    RebasedEntries(cfg, d, s);
    RebaseIsClean(changes, probe);
    RebasePlans(changes, probe);
  }

  /** A rebase of an active session goes through exactly when every staged file can be read and none is in
      conflict: each still shows its base, or its changes replay and fit one after another. */
  lemma RebaseGranted(cfg: Config, d: Disk, s: Sess)
    requires Active(s)
    ensures DoRebase(cfg, d, s).1 <==>
            forall p :: ChangesFor(LoadAll(s.entries), p) != [] ==>
              ProbeOf(cfg, d.files)(p).Some? &&
              StatusOf(ChangesFor(LoadAll(s.entries), p), ProbeOf(cfg, d.files)(p).value) != Conflict
  {
    hide Check, LoadAll, ChangesFor, PathsOf, ProbeOf, DuePaths, RestageEntries, StatusOf, Active;
    var changes, probe := LoadAll(s.entries), ProbeOf(cfg, d.files);
    PathsSorted(changes);
    var check := Check(changes, probe);
    if check.Some? && check.value.conflicts == 0 {
      forall p | ChangesFor(changes, p) != [] ensures probe(p).Some? && StatusOf(ChangesFor(changes, p), probe(p).value) != Conflict {
        NoConflict(changes, probe, p);
      }
    } else if forall p :: ChangesFor(changes, p) != [] ==> probe(p).Some? && StatusOf(ChangesFor(changes, p), probe(p).value) != Conflict {
      CheckWithout(changes, probe, Conflict);
      CheckCounts(changes, probe);
    }
  }

  lemma DueIsStaged(changes: seq<StagedChange>, probe: Probe, p: string)
    requires p in DuePaths(changes, probe)
    ensures p in PathsOf(changes)
  {
    hide PathsOf, Due;
  }

  /** A rebased file is planned with exactly the content the check's own replay computed. */
  lemma RebasePlansTrial(cfg: Config, d: Disk, s: Sess, p: string)
    requires DoRebase(cfg, d, s).1
    requires p in DuePaths(LoadAll(s.entries), ProbeOf(cfg, d.files))
    ensures var probe, next := ProbeOf(cfg, d.files), DoRebase(cfg, d, s).0;
            probe(p).Some? &&
            Replay(ChangesFor(LoadAll(next.entries), p), probe(p).value.content) ==
            Some(Try(ChangesFor(LoadAll(s.entries), p), probe(p).value.content).content)
  {
    hide Check, LoadAll, ChangesFor, PathsOf, Replay, Try, ProbeOf, DuePaths, DoRebase, Rebased, SizesFit;
    RebasedEntries(cfg, d, s);
    DueIsStaged(LoadAll(s.entries), ProbeOf(cfg, d.files), p);
    RebaseReplays(LoadAll(s.entries), ProbeOf(cfg, d.files), p);
  }

  // ----- Adding and dropping -------------------------------------------------------------

  lemma {:induction false} DropPathLoads(entries: seq<Entry>, path: string)
    ensures LoadAll(WithoutFile(entries, path)) == WithoutPath(LoadAll(entries), path)
  {
    hide DeserializedChange;
    if entries != [] {
      var front, last := entries[..|entries| - 1], entries[|entries| - 1];
      DropPathLoads(front, path);
      assert entries == front + [last];
      LoadSnoc(front, last);
      LoadSnoc(WithoutFile(front, path), last);
      var c := LoadAll(front);
      assert (c + [DeserializedChange(last.text)])[..|c|] == c;
    }
  }

  lemma {:induction false} FullDrop(entries: seq<Entry>, p: string)
    ensures |WithoutFile(entries, p)| == |entries| <==> forall e :: e in entries ==> !OnPath(e, p)
    ensures |WithoutFile(entries, p)| == |entries| ==> WithoutFile(entries, p) == entries
  {
    hide OnPath;
    if entries != [] {
      FullDrop(entries[..|entries| - 1], p);
      var front, last := entries[..|entries| - 1], entries[|entries| - 1];
      assert entries == front + [last] && forall e :: e in entries <==> e in front || e == last;
    }
  }

  lemma {:induction false} FullDropId(entries: seq<Entry>, id: string)
    ensures |WithoutId(entries, id)| == |entries| <==> forall e :: e in entries ==> !NamedBy(e, id)
  {
    hide NamedBy;
    if entries != [] {
      FullDropId(entries[..|entries| - 1], id);
      var front, last := entries[..|entries| - 1], entries[|entries| - 1];
      assert entries == front + [last] && forall e :: e in entries <==> e in front || e == last;
    }
  }

  /** What the calls that change the staged changes answer: a session begins under any name but the empty one; it
      takes changes and gives them back while it is active; it is aborted whenever it exists; and what cannot
      be dropped is refused. */
  lemma CallsAnswer(id: string, s: Sess, input: StagedChange, freshId: string, now: string, dropped: string)
    ensures DoBegin(id, s).1 <==> id != ""
    ensures DoAdd(id, s, input, freshId, now).1 <==> Active(s)
    ensures DoAbort(s).1 <==> s.begun
    ensures s.begun ==> DoAbort(s).0 == s.(stage := Aborted)
    ensures DoDropChange(s, dropped).1 <==> Active(s) && dropped != "" && exists e :: e in s.entries && NamedBy(e, dropped)
    ensures DoDropPath(s, dropped).1 <==> Active(s) && exists e :: e in s.entries && OnPath(e, dropped)
    ensures !DoDropChange(s, dropped).1 ==> DoDropChange(s, dropped).0 == s
    ensures !DoDropPath(s, dropped).1 ==> DoDropPath(s, dropped).0 == s
  {
    hide Active, NamedBy, OnPath, PutEntry, FilledIn, FileName, WithoutId, WithoutFile;
    FullDrop(s.entries, dropped);
    FullDropId(s.entries, dropped);
  }

  /** The plan of a session once a file is dropped: there is one exactly when every other staged file
      replays, and it is the old plan without that file, if there was one. */
  lemma DropLeavesPlan(cfg: Config, d: Disk, s: Sess, path: string)
    requires DoDropPath(s, path).1
    ensures var read, was, now := Contents(ProbeOf(cfg, d.files)), LoadAll(s.entries), LoadAll(DoDropPath(s, path).0.entries);
            (PlanOf(now, read).Some? <==> forall p :: p in PathsOf(was) && p != path ==> Replays(was, read, p)) &&
            (PlanOf(was, read).Some? ==> PlanOf(now, read) == Some(WithoutPlanned(PlanOf(was, read).value, path)))
  {
    hide LoadAll, ProbeOf, Contents, PathsOf, PlanOf, WithoutFile, Replays, WithoutPlanned;
    var read, was := Contents(ProbeOf(cfg, d.files)), LoadAll(s.entries);
    DropPathLoads(s.entries, path);
    DropPlans(was, path, read);
    if PlanOf(was, read).Some? {
      PlannedReplay(was, read);
      DropPlanIs(was, path, read);
    }
  }

  lemma PlannedReplay(changes: seq<StagedChange>, read: Reader)
    requires PlanOf(changes, read).Some?
    ensures forall p :: p in PathsOf(changes) ==> Replays(changes, read, p)
  {
    hide PathsOf, Replays, PlanFiles;
  }

  /** The plan once a change is dropped by an id that names no other file: for each path the changes
      that do not have this id, replayed on their own. */
  lemma DropChangeLeavesPlan(cfg: Config, d: Disk, s: Sess, id: string)
    requires DoDropChange(s, id).1 && NamesOnlyIts(s.entries, id)
    ensures var read, was, now := Contents(ProbeOf(cfg, d.files)), LoadAll(s.entries), LoadAll(DoDropChange(s, id).0.entries);
            (PlanOf(now, read).Some? <==>
              forall p :: WithoutChange(ChangesFor(was, p), id) != [] ==>
                read(p).Some? && Replay(WithoutChange(ChangesFor(was, p), id), read(p).value).Some?) &&
            (PlanOf(now, read).Some? ==>
              forall i :: 0 <= i < |PlanOf(now, read).value| ==>
                var f := PlanOf(now, read).value[i];
                Replay(WithoutChange(ChangesFor(was, f.path), id), f.currentContent) == Some(f.finalContent))
  {
    hide LoadAll, ProbeOf, Contents, PlanOf, WithoutId, WithoutChange, ChangesFor, Replay, NamesOnlyIts;
    DropIsExact(s, id);
    DropChangePlans(LoadAll(s.entries), id, Contents(ProbeOf(cfg, d.files)));
  }

  ghost predicate NamesOnlyIts(entries: seq<Entry>, id: string)
  {
    forall i :: 0 <= i < |entries| && Find(entries[i].name, id, 0).Some? ==>
      DeserializedChange(entries[i].text).changeId == id
  }

  lemma {:induction false} DropCounts(entries: seq<Entry>, id: string)
    ensures var rest, mine := LoadAll(WithoutId(entries, id)), WithoutChange(LoadAll(entries), id);
            |rest| <= |mine| && (NamesOnlyIts(entries, id) ==> rest == mine) &&
            (|rest| == |mine| ==> NamesOnlyIts(entries, id))
  {
    hide DeserializedChange, Find;
    if entries != [] {
      var front, last := entries[..|entries| - 1], entries[|entries| - 1];
      DropCounts(front, id);
      assert entries == front + [last];
      LoadSnoc(front, last);
      LoadSnoc(WithoutId(front, id), last);
      var c := LoadAll(front);
      assert (c + [DeserializedChange(last.text)])[..|c|] == c;
      assert entries[..|front|] == front;
    }
  }

  /** Dropping a change by its id removes exactly the changes of that id if and only if the id occurs
      in the file name of no other change. */
  lemma DropIsExact(s: Sess, id: string)
    requires DoDropChange(s, id).1
    ensures LoadAll(DoDropChange(s, id).0.entries) == WithoutChange(LoadAll(s.entries), id) <==>
            NamesOnlyIts(s.entries, id)
  {
    hide NamesOnlyIts, WithoutChange, LoadAll;
    DropCounts(s.entries, id);
  }

  /** It does not always: every file name holds the text "json". */
  lemma DropOfJson(s: Sess, ordinal: nat, id: string, text: string)
    requires Active(s) && s.entries == [Entry(FileName(ordinal, id), text)]
    ensures DoDropChange(s, "json") == (Dropped(s, []), true)
  {
    hide Padded, DeserializedChange, Find;
    var name := FileName(ordinal, id);
    var p := |name| - 4;
    assert ".json" == "." + "json";
    AtSlice(name, p, "json");
    FindSkips(name, "json", 0, p);
    assert s.entries[..0] == [];
  }
}

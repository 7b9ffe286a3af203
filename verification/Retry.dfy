/** Trying a stopped commit again: what the session leaves, what may happen in between, and a later
    commit that goes through (session_service.cpp). */
module Retry {
  import opened Text
  import opened ChangeRecord
  import opened Edits
  import opened Names
  import opened Plan
  import opened ChangeRoundTrip
  import opened Recovery
  import opened Encoding
  import opened PatchStore
  import opened Undo
  import opened Commit
  import opened Sessions
  import opened SessionRuns
  import opened Spared

  /** A commit of a ready session stopped. */
  ghost predicate Stopped(cfg: Config, d: Disk, s: Sess)
  {
    Sound(d) && Ready(cfg, d, s).Some? && DoCommit(cfg, d, s).2.None?
  }

  /** The disk and the session it left. */
  ghost function Left(cfg: Config, d: Disk, s: Sess): World
  {
    World(DoCommit(cfg, d, s).0, DoCommit(cfg, d, s).1)
  }

  /** The same after further calls. */
  ghost function Later(cfg: Config, id: string, d: Disk, s: Sess, calls: seq<Call>): World
  {
    Run(cfg, id, Left(cfg, d, s), calls)
  }

  /** How the next commit ends. */
  ghost function Again(cfg: Config, id: string, d: Disk, s: Sess, calls: seq<Call>): (Disk, Sess, Option<seq<CommitFile>>)
  {
    DoCommit(cfg, Later(cfg, id, d, s, calls).disk, Later(cfg, id, d, s, calls).sess)
  }

  /** A commit stopped, calls that leave `p` alone followed, and a second commit went through. */
  ghost predicate Retried(cfg: Config, id: string, d: Disk, s: Sess, calls: seq<Call>, p: string)
  {
    Stopped(cfg, d, s) && SparesAll(cfg, id, Left(cfg, d, s), calls, p) && Again(cfg, id, d, s, calls).2.Some?
  }

  /** The stopped commit wrote the path. */
  ghost predicate Reached(cfg: Config, d: Disk, s: Sess, p: string)
  {
    Ready(cfg, d, s).Some? && Among(Ready(cfg, d, s).value, Reach(cfg, d, Ready(cfg, d, s).value), p)
  }

  /** What one replay of a path's changes makes of a file. */
  ghost predicate Makes(cfg: Config, files: map<string, File>, changes: seq<StagedChange>, p: string, bytes: Option<string>)
  {
    ReadState(cfg, files, p).Some? && Replay(changes, BytesAt(files, p).GetOr("")).Some? &&
    bytes == Some(Encode(Replay(changes, BytesAt(files, p).GetOr("")).value, ReadState(cfg, files, p).value.format))
  }

  // ----- What a stopped commit leaves ----------------------------------------------------

  lemma StoppedSession(cfg: Config, d: Disk, s: Sess)
    requires Ready(cfg, d, s).Some? && DoCommit(cfg, d, s).2.None?
    ensures Left(cfg, d, s) == World(CommitAll(cfg, d, Ready(cfg, d, s).value).disk, s.(stage := Writing))
  {
    hide Ready, CommitAll;
  }

  /** What a stopped commit leaves: the paths it wrote with one replay, every other path as it was. */
  lemma StoppedPath(cfg: Config, d: Disk, s: Sess, p: string)
    requires Stopped(cfg, d, s)
    ensures var left := Left(cfg, d, s);
            Sound(left.disk) && SameEdits(s, left.sess, p) &&
            if Reached(cfg, d, s, p) then
              Mine(s, p) != [] && Makes(cfg, d.files, Mine(s, p), p, BytesAt(left.disk.files, p))
            else BytesAt(left.disk.files, p) == BytesAt(d.files, p)
  {
    hide Ready, CommitAll, Sound, WroteFirst, SavedFirst, ClockAt, PlanOf, LoadAll, ReadState, Encode, Replay,
      ChangesFor, BytesAt, ProbeOf, Reach, DistinctPaths, CameTo, WritableAt, DoCommit, SameEdits;
    var changes, read, files := LoadAll(s.entries), Contents(ProbeOf(cfg, d.files)), Ready(cfg, d, s).value;
    var w := Reach(cfg, d, files);
    StoppedSession(cfg, d, s);
    SameEntries(s, Left(cfg, d, s).sess, p);
    ReadyIsPlan(cfg, d, s);
    PlanPathsDistinct(changes, read);
    CommitReach(cfg, d, files);
    WroteOthers(cfg, d.files, Left(cfg, d, s).disk.files, files, w);
    if Among(files, w, p) {
      var i :| 0 <= i < w && files[i].path == p;
      PlanIsPerFile(changes, read);
      SeenContent(cfg, d.files, p);
      WroteThis(cfg, d.files, Left(cfg, d, s).disk.files, files, w, i);
    }
  }

  lemma WroteThis(cfg: Config, was: map<string, File>, now: map<string, File>, files: seq<PlannedFile>, n: nat, i: nat)
    requires i < n <= |files| && WroteFirst(cfg, was, now, files, n)
    ensures ReadState(cfg, was, files[i].path).Some?
    ensures BytesAt(now, files[i].path) ==
            Some(Encode(files[i].finalContent, ReadState(cfg, was, files[i].path).value.format))
  {
    hide ReadState, Encode, BytesAt;
  }

  lemma LaterPath(cfg: Config, id: string, d: Disk, s: Sess, calls: seq<Call>, p: string)
    requires Stopped(cfg, d, s) && SparesAll(cfg, id, Left(cfg, d, s), calls, p)
    ensures var later := Later(cfg, id, d, s, calls);
            Sound(later.disk) && SameEdits(s, later.sess, p) &&
            BytesAt(later.disk.files, p) == BytesAt(Left(cfg, d, s).disk.files, p)
  {
    hide Stopped, SparesAll, Left, Reached, Sound, SameEdits, BytesAt, Makes, Mine;
    StoppedPath(cfg, d, s, p);
    SparedRun(cfg, id, Left(cfg, d, s), calls, p);
    SameEditsTransitive(s, Left(cfg, d, s).sess, Later(cfg, id, d, s, calls).sess, p);
  }

  // ----- What the second commit writes ---------------------------------------------------

  lemma MakesSame(cfg: Config, a: map<string, File>, b: map<string, File>, mine: seq<StagedChange>, other: seq<StagedChange>,
                  p: string, bytes: Option<string>)
    requires BytesAt(a, p) == BytesAt(b, p) && forall content :: Replay(mine, content) == Replay(other, content)
    ensures Makes(cfg, a, mine, p, bytes) <==> Makes(cfg, b, other, p, bytes)
  {
    hide ReadState, Replay, Encode, BytesAt;
    SameBytesRead(cfg, a, b, p);
    assert Replay(mine, BytesAt(a, p).GetOr("")) == Replay(other, BytesAt(a, p).GetOr(""));
  }

  lemma CommitMakes(cfg: Config, d: Disk, s: Sess, p: string)
    requires Sound(d) && DoCommit(cfg, d, s).2.Some?
    ensures var now := BytesAt(DoCommit(cfg, d, s).0.files, p);
            if Mine(s, p) == [] then now == BytesAt(d.files, p) else Makes(cfg, d.files, Mine(s, p), p, now)
  {
    hide DoCommit, Sound, LoadAll, ChangesFor, Replay, ReadState, Encode, BytesAt;
    CommitWritesPlan(cfg, d, s, p);
  }

  /** A second commit that goes through, whatever the calls in between did to other paths: a path with
      staged changes is one more replay of them on what the first commit left of it, and any other is as
      it always was.  So a file the first commit had not reached ends exactly as the first commit would
      have left it, and a file it had written is replayed twice. */
  lemma RetryWrites(cfg: Config, id: string, d: Disk, s: Sess, calls: seq<Call>, p: string)
    requires Retried(cfg, id, d, s, calls, p)
    ensures var end, left := BytesAt(Again(cfg, id, d, s, calls).0.files, p), Left(cfg, d, s).disk.files;
            if Mine(s, p) == [] then end == BytesAt(d.files, p)
            else Makes(cfg, left, Mine(s, p), p, end) && (!Reached(cfg, d, s, p) ==> Makes(cfg, d.files, Mine(s, p), p, end))
  {
    hide Stopped, SparesAll, Left, Later, Reached, DoCommit, Sound, BytesAt, Makes, Mine, Replay;
    var later := Later(cfg, id, d, s, calls);
    StoppedPath(cfg, d, s, p);
    LaterPath(cfg, id, d, s, calls, p);
    CommitMakes(cfg, later.disk, later.sess, p);
    var end, left := BytesAt(Again(cfg, id, d, s, calls).0.files, p), Left(cfg, d, s).disk.files;
    MakesSame(cfg, left, later.disk.files, Mine(s, p), Mine(later.sess, p), p, end);
    if !Reached(cfg, d, s, p) { MakesSame(cfg, left, d.files, Mine(s, p), Mine(s, p), p, end); }
  }

  /** A path it had written whose changes rewrite the whole file at some point ends as the first commit
      left it, exactly unless it was written without a byte order mark and yet starts with one. */
  lemma WholeFileOnce(cfg: Config, id: string, d: Disk, s: Sess, calls: seq<Call>, p: string)
    requires Retried(cfg, id, d, s, calls, p) && Reached(cfg, d, s, p)
    requires exists i :: 0 <= i < |Mine(s, p)| && OperationOf(Mine(s, p)[i].operation) == ReplaceContent
    ensures var first, end := BytesAt(Left(cfg, d, s).disk.files, p), BytesAt(Again(cfg, id, d, s, calls).0.files, p);
            first.Some? && ReadState(cfg, d.files, p).Some? &&
            (end == first <==> ReadState(cfg, d.files, p).value.format.bom || FileMark(first.value) == "")
  {
    hide Ready, Left, Again, SparesAll, Sound, Mine, Replay, ReadState, Encode, Decode, BytesAt, Reached, OperationOf, FileMark;
    RetryWrites(cfg, id, d, s, calls, p);
    StoppedPath(cfg, d, s, p);
    var left, mine := Left(cfg, d, s).disk.files, Mine(s, p);
    WholeFileForgets(mine, BytesAt(d.files, p).GetOr(""), BytesAt(left, p).GetOr(""));
    RewritesSame(cfg, d.files, left, p, Replay(mine, BytesAt(d.files, p).GetOr("")).value);
  }

  /** Writing a content over the file it made. */
  lemma RewritesSame(cfg: Config, was: map<string, File>, now: map<string, File>, p: string, content: string)
    requires ReadState(cfg, was, p).Some? && ReadState(cfg, now, p).Some?
    requires BytesAt(now, p) == Some(Encode(content, ReadState(cfg, was, p).value.format))
    ensures var raw := Encode(content, ReadState(cfg, was, p).value.format);
            Encode(content, ReadState(cfg, now, p).value.format) == raw <==>
            ReadState(cfg, was, p).value.format.bom || FileMark(raw) == ""
  {
    hide Encode, Decode, FileMark;
    var format := ReadState(cfg, was, p).value.format;
    WrittenIsStable(content, format);
    WrittenTwice(content, format);
  }

  // ----- When there is a second commit at all --------------------------------------------

  /** How many files of its plan the commit of a ready session counts as done. */
  ghost function DoneBy(cfg: Config, d: Disk, s: Sess): (k: nat)
    requires Ready(cfg, d, s).Some?
    ensures k <= |Ready(cfg, d, s).value|
  {
    |CommitAll(cfg, d, Ready(cfg, d, s).value).done|
  }

  /** The file a stopped commit stopped at could not be committed; the files before it, and only they
      unless a NUL stopped the commit, were written. */
  lemma StopsAt(cfg: Config, d: Disk, s: Sess)
    requires Stopped(cfg, d, s)
    ensures var files, k := Ready(cfg, d, s).value, DoneBy(cfg, d, s);
            k < |files| && DistinctPaths(files) && !Committable(cfg, d, files, k) &&
            Reach(cfg, d, files) == if WritableAt(cfg, d, files, k) then k + 1 else k
    ensures var files, k := Ready(cfg, d, s).value, DoneBy(cfg, d, s);
            forall i :: 0 <= i < |files| ==>
              Mine(s, files[i].path) != [] && (Reached(cfg, d, s, files[i].path) <==> i < Reach(cfg, d, files)) &&
              (i < k ==> Committable(cfg, d, files, i)) &&
              Replay(Mine(s, files[i].path), BytesAt(d.files, files[i].path).GetOr("")) == Some(files[i].finalContent)
  {
    hide Ready, Sound, WroteFirst, SavedFirst, ClockAt, PlanOf, LoadAll, Replay, ChangesFor, BytesAt, ProbeOf,
      Committable, WritableAt, CommitFirst, InTime;
    var changes, read, files := LoadAll(s.entries), Contents(ProbeOf(cfg, d.files)), Ready(cfg, d, s).value;
    ReadyIsPlan(cfg, d, s);
    PlanPathsDistinct(changes, read);
    PlanIsPerFile(changes, read);
    CommitStops(cfg, d, s);
    forall i | 0 <= i < |files|
      ensures Mine(s, files[i].path) != [] && (Reached(cfg, d, s, files[i].path) <==> i < Reach(cfg, d, files))
      ensures Replay(Mine(s, files[i].path), BytesAt(d.files, files[i].path).GetOr("")) == Some(files[i].finalContent)
    {
      PlannedFits(cfg, d, changes, i);
      OnceAmong(files, Reach(cfg, d, files), i);
    }
  }

  lemma OnceAmong(files: seq<PlannedFile>, n: nat, i: nat)
    requires n <= |files| && i < |files| && DistinctPaths(files)
    ensures Among(files, n, files[i].path) <==> i < n
  {
  }

  /** Until the file a commit stopped at is touched, on the disk or in the session, no later commit goes
      through, whatever else happens, unless all that stopped it was a preview that expired. */
  lemma NoRetryUntouched(cfg: Config, id: string, d: Disk, s: Sess, calls: seq<Call>)
    requires Stopped(cfg, d, s)
    requires InTime(cfg, TickAt(cfg, ClockAt(cfg, d.clock, 2 * DoneBy(cfg, d, s))))
    requires SparesAll(cfg, id, Left(cfg, d, s), calls, Ready(cfg, d, s).value[DoneBy(cfg, d, s)].path)
    ensures Again(cfg, id, d, s, calls).2.None?
  {
    hide SparesAll, Left, Later, Ready, DoCommit, Sound, BytesAt, Mine, Replay, DoneBy, Reached, ReadState, Reach,
      Makes, SameEdits, InTime, DistinctPaths, ClockAt;
    var files, k := Ready(cfg, d, s).value, DoneBy(cfg, d, s);
    StopsAt(cfg, d, s);
    var p := files[k].path;
    var left, later := Left(cfg, d, s), Later(cfg, id, d, s, calls);
    StoppedPath(cfg, d, s, p);
    LaterPath(cfg, id, d, s, calls, p);
    if Again(cfg, id, d, s, calls).2.Some? {
      SameEditsThen(s, later.sess, p);
      CommittedFits(cfg, later.disk, later.sess, p);
      SameBytesRead(cfg, left.disk.files, later.disk.files, p);
      if WritableAt(cfg, d, files, k) {
        NulLeft(cfg, d.files, left.disk.files, Mine(s, p), p);
      } else {
        SameBytesRead(cfg, d.files, left.disk.files, p);
      }
    }
  }

  lemma SameEditsThen(s: Sess, t: Sess, p: string)
    requires SameEdits(s, t, p)
    ensures Mine(s, p) == [] <==> Mine(t, p) == []
    ensures Mine(t, p) == ChangesFor(LoadAll(t.entries), p)
  {
  }

  /** What was written with a NUL is not text any more. */
  lemma NulLeft(cfg: Config, was: map<string, File>, now: map<string, File>, changes: seq<StagedChange>, p: string)
    requires Makes(cfg, was, changes, p, BytesAt(now, p)) && '\0' in Replay(changes, BytesAt(was, p).GetOr("")).value
    ensures ReadState(cfg, now, p).None?
  {
    hide Encode, Decode, Replay;
    WrittenIsStable(Replay(changes, BytesAt(was, p).GetOr("")).value, ReadState(cfg, was, p).value.format);
  }

  // ----- Dropping the file a commit stopped at -------------------------------------------

  function DropAndRebase(p: string): seq<Call> { [CallDropPath(p), CallRebase] }

  lemma TwoCalls(cfg: Config, id: string, w: World, p: string)
    ensures Run(cfg, id, w, DropAndRebase(p)) ==
            World(w.disk, DoRebase(cfg, w.disk, DoDropPath(w.sess, p).0).0)
    ensures forall q :: q != p ==> SparesAll(cfg, id, w, DropAndRebase(p), q)
  {
    hide DoRebase, DoDropPath;
    var calls := DropAndRebase(p);
    assert calls[..1] == [CallDropPath(p)] && calls[..1][..0] == [];
    var w1 := Step(cfg, id, w, CallDropPath(p));
    assert Run(cfg, id, w, calls[..1]) == w1;
    forall q | q != p ensures SparesAll(cfg, id, w, calls, q) {
      assert SparesAll(cfg, id, w, calls[..1], q);
      assert Spares(cfg, id, w1, CallRebase, q);
    }
  }

  /** Dropping a staged path of an active session is never refused, and leaves the other paths. */
  lemma DropTaken(s: Sess, p: string)
    requires Active(s) && Mine(s, p) != []
    ensures DoDropPath(s, p).1 && Active(DoDropPath(s, p).0)
    ensures LoadAll(DoDropPath(s, p).0.entries) == WithoutPath(LoadAll(s.entries), p)
    ensures Mine(DoDropPath(s, p).0, p) == [] && forall q :: q != p ==> Mine(DoDropPath(s, p).0, q) == Mine(s, q)
  {
    hide LoadAll, ChangesFor, WithoutFile, WithoutPath;
    FullDrop(s.entries, p);
    DropPathLoads(s.entries, p);
    forall q ensures ChangesFor(WithoutPath(LoadAll(s.entries), p), q) == if q == p then [] else ChangesFor(LoadAll(s.entries), q) {
      DropLeavesOthers(LoadAll(s.entries), p, q);
    }
  }

  lemma {:induction false} OneNameLess(names: seq<string>, name: string)
    requires Sorted(names)
    ensures |WithoutName(names, name)| == if name in names then |names| - 1 else |names|
  {
    hide Less;
    if names != [] {
      var front, last := names[..|names| - 1], names[|names| - 1];
      assert names == front + [last];
      OneNameLess(front, name);
      if last == name && name in front {
        var i :| 0 <= i < |front| && front[i] == name;
        assert Less(names[i], names[|front|]);
        LessIrreflexive(name);
      }
    }
  }

  /** One staged path less to commit. */
  lemma OnePathLess(cfg: Config, d: Disk, s: Sess, p: string)
    requires Active(s) && Mine(s, p) != [] && DoRebase(cfg, d, DoDropPath(s, p).0).1
    ensures var t := DroppedAndRebased(cfg, d, s, p);
            |PathsOf(LoadAll(t.entries))| == |PathsOf(LoadAll(s.entries))| - 1
  {
    hide LoadAll, ChangesFor, PathsOf, DoRebase, DoDropPath, ProbeOf, DuePaths, RestageAll, SizesFit, WithoutPath, WithoutName, Check;
    var s2 := DoDropPath(s, p).0;
    DropTaken(s, p);
    RebasedEntries(cfg, d, s2);
    RestagePerFile(LoadAll(s2.entries), DuePaths(LoadAll(s2.entries), ProbeOf(cfg, d.files)), ProbeOf(cfg, d.files), "");
    DropPaths(LoadAll(s.entries), p);
    PathsSorted(LoadAll(s.entries));
    OneNameLess(PathsOf(LoadAll(s.entries)), p);
  }

  lemma FitsSame(cfg: Config, files: map<string, File>, s: Sess, t: Sess, p: string)
    requires SameEdits(s, t, p)
    ensures Fits(cfg, files, Mine(s, p), p) <==> Fits(cfg, files, Mine(t, p), p)
  {
    hide Mine, Replay, ReadState;
    assert Replay(Mine(s, p), BytesAt(files, p).GetOr("")) == Replay(Mine(t, p), BytesAt(files, p).GetOr(""));
  }

  /** The session once a path is dropped and the rest is rebased. */
  ghost function DroppedAndRebased(cfg: Config, d: Disk, s: Sess, p: string): Sess
  {
    DoRebase(cfg, d, DoDropPath(s, p).0).0
  }

  /** Every staged file but one can be committed. */
  ghost predicate OthersFit(cfg: Config, files: map<string, File>, s: Sess, p: string)
  {
    forall q :: q != p && Mine(s, q) != [] ==> Fits(cfg, files, Mine(s, q), q)
  }

  lemma RestFits(cfg: Config, d: Disk, s: Sess, p: string)
    requires Active(s) && Mine(s, p) != [] && DoRebase(cfg, d, DoDropPath(s, p).0).1
    ensures AllFit(cfg, d, LoadAll(DroppedAndRebased(cfg, d, s, p).entries)) <==> OthersFit(cfg, d.files, s, p)
  {
    hide LoadAll, ChangesFor, DoRebase, DoDropPath, Fits, SameEdits, WithoutPath;
    var s2 := DoDropPath(s, p).0;
    var t := DoRebase(cfg, d, s2).0;
    DropTaken(s, p);
    forall q ensures (Mine(t, q) == [] <==> q == p || Mine(s, q) == []) &&
                     (q != p ==> (Fits(cfg, d.files, Mine(t, q), q) <==> Fits(cfg, d.files, Mine(s, q), q)))
    {
      RebaseSpares(cfg, d, s2, q);
      SameEditsThen(s2, t, q);
      FitsSame(cfg, d.files, s2, t, q);
    }
    if AllFit(cfg, d, LoadAll(t.entries)) {
      forall q | q != p && Mine(s, q) != [] ensures Fits(cfg, d.files, Mine(s, q), q) {
        assert ChangesFor(LoadAll(t.entries), q) == Mine(t, q);
      }
    } else {
      var q :| ChangesFor(LoadAll(t.entries), q) != [] && !Fits(cfg, d.files, ChangesFor(LoadAll(t.entries), q), q);
      assert Mine(t, q) == ChangesFor(LoadAll(t.entries), q);
    }
  }

  /** What a commit needs of a session whose blocking path was dropped and that was then rebased. */
  lemma DropThenCommit(cfg: Config, d: Disk, s: Sess, p: string)
    requires Sound(d) && Active(s) && Mine(s, p) != []
    ensures DoCommit(cfg, d, DroppedAndRebased(cfg, d, s, p)).2.Some? <==>
            DoRebase(cfg, d, DoDropPath(s, p).0).1 && InTimeFor(cfg, d.clock, |PathsOf(LoadAll(s.entries))| - 1) && OthersFit(cfg, d.files, s, p)
  {
    hide OthersFit, LoadAll, Mine, DoRebase, DoDropPath, DoCommit, Sound, Fits, Ready, PlanOf, ProbeOf, PathsOf, DuePaths, AllFit, InTimeFor, Replays;
    var s2 := DoDropPath(s, p).0;
    var t := DoRebase(cfg, d, s2).0;
    if DoRebase(cfg, d, s2).1 {
      RebaseUnblocks(cfg, d, s2);
      CommitFits(cfg, d, t);
      RestFits(cfg, d, s, p);
      OnePathLess(cfg, d, s, p);
    } else {
      RefusedRebase(cfg, d, s2);
      CommitReady(cfg, d, t);
    }
  }

  /** The changes of a path replay once more on what the stopped commit left, without a NUL. */
  ghost predicate ReplaysAgain(cfg: Config, d: Disk, s: Sess, p: string)
  {
    var next := Replay(Mine(s, p), BytesAt(Left(cfg, d, s).disk.files, p).GetOr(""));
    next.Some? && '\0' !in next.value
  }

  /** A file of the plan can be committed the next time. */
  ghost predicate Recommits(cfg: Config, d: Disk, s: Sess, i: nat)
    requires Ready(cfg, d, s).Some? && i < |Ready(cfg, d, s).value|
  {
    var file := Ready(cfg, d, s).value[i];
    if i < DoneBy(cfg, d, s) then ReplaysAgain(cfg, d, s, file.path)
    else cfg.verdict(file.path) == Allowed && ReadState(cfg, d.files, file.path).Some? && '\0' !in file.finalContent
  }

  /** A file written by the stopped commit is allowed and text; one behind it is as it was. */
  lemma FitsLater(cfg: Config, d: Disk, s: Sess, i: nat)
    requires Stopped(cfg, d, s) && i < |Ready(cfg, d, s).value| && i != DoneBy(cfg, d, s)
    ensures var files, k, left := Ready(cfg, d, s).value, DoneBy(cfg, d, s), Left(cfg, d, s).disk.files;
            Fits(cfg, left, Mine(s, files[i].path), files[i].path) <==> Recommits(cfg, d, s, i)
  {
    hide Left, Ready, DoCommit, Sound, BytesAt, Mine, Replay, DoneBy, Reached, ReadState, Reach, SameEdits, InTime, DistinctPaths, ClockAt, Encode;
    var files, k, left := Ready(cfg, d, s).value, DoneBy(cfg, d, s), Left(cfg, d, s).disk.files;
    var p := files[i].path;
    StopsAt(cfg, d, s);
    StoppedPath(cfg, d, s, p);
    if i < k {
      assert Committable(cfg, d, files, i);
      PlainLeft(cfg, d.files, left, Mine(s, p), p);
    } else {
      SameBytesRead(cfg, d.files, left, p);
    }
  }

  lemma PlainLeft(cfg: Config, was: map<string, File>, now: map<string, File>, changes: seq<StagedChange>, p: string)
    requires Makes(cfg, was, changes, p, BytesAt(now, p)) && '\0' !in Replay(changes, BytesAt(was, p).GetOr("")).value
    ensures ReadState(cfg, now, p).Some?
  {
    hide Encode, Decode, Replay;
    WrittenIsStable(Replay(changes, BytesAt(was, p).GetOr("")).value, ReadState(cfg, was, p).value.format);
  }

  /** The way on after a stop: drop the file the commit stopped at, rebase, and commit again.  The second
      commit goes through exactly when the rebase does, no preview expires, the files already written
      replay once more without a NUL, and the files behind could have been committed the first time. */
  lemma DropAndRetry(cfg: Config, id: string, d: Disk, s: Sess)
    requires Stopped(cfg, d, s)
    ensures var files, k, left := Ready(cfg, d, s).value, DoneBy(cfg, d, s), Left(cfg, d, s);
            k < |files| && DoDropPath(left.sess, files[k].path).1 &&
            (Again(cfg, id, d, s, DropAndRebase(files[k].path)).2.Some? <==>
             DoRebase(cfg, left.disk, DoDropPath(left.sess, files[k].path).0).1 &&
             InTimeFor(cfg, left.disk.clock, |files| - 1) &&
             forall i :: 0 <= i < |files| && i != k ==> Recommits(cfg, d, s, i))
  {
    hide Left, Again, Ready, DoCommit, Sound, LoadAll, Mine, DoneBy, DoRebase, DoDropPath, DropAndRebase, PathsOf, InTimeFor, Fits,
      Recommits, OthersFit, Active, Stopped;
    var p := BlockingPath(cfg, d, s);
    var left := Left(cfg, d, s);
    AgainAfterDrop(cfg, id, d, s, p);
    DropThenCommit(cfg, left.disk, left.sess, p);
    OthersRecommit(cfg, d, s);
  }

  /** The path a commit stopped at, still staged. */
  lemma BlockingPath(cfg: Config, d: Disk, s: Sess) returns (p: string)
    requires Stopped(cfg, d, s)
    ensures var files, k, left := Ready(cfg, d, s).value, DoneBy(cfg, d, s), Left(cfg, d, s);
            k < |files| && files[k].path == p && Mine(left.sess, p) != [] && DoDropPath(left.sess, p).1 &&
            Sound(left.disk) && Active(left.sess) && |PathsOf(LoadAll(left.sess.entries))| == |files|
  {
    hide Left, Ready, DoCommit, Sound, Mine, DoneBy, DoDropPath, PathsOf, LoadAll, Active;
    SessionLeft(cfg, d, s);
    p := Ready(cfg, d, s).value[DoneBy(cfg, d, s)].path;
    DropTaken(Left(cfg, d, s).sess, p);
  }

  lemma AgainAfterDrop(cfg: Config, id: string, d: Disk, s: Sess, p: string)
    ensures var left := Left(cfg, d, s);
            Again(cfg, id, d, s, DropAndRebase(p)) ==
            DoCommit(cfg, left.disk, DroppedAndRebased(cfg, left.disk, left.sess, p))
  {
    hide Left, DoCommit, DoRebase, DoDropPath, DropAndRebase, Run, SparesAll;
    TwoCalls(cfg, id, Left(cfg, d, s), p);
  }

  lemma SessionLeft(cfg: Config, d: Disk, s: Sess)
    requires Stopped(cfg, d, s)
    ensures var files, k, left := Ready(cfg, d, s).value, DoneBy(cfg, d, s), Left(cfg, d, s);
            Sound(left.disk) && Active(left.sess) && |PathsOf(LoadAll(left.sess.entries))| == |files| &&
            (forall p :: Mine(left.sess, p) == Mine(s, p)) && k < |files| && Mine(s, files[k].path) != []
  {
    hide Ready, CommitAll, Sound, LoadAll, ChangesFor, DoneBy, PathsOf, BytesAt, Committable, WritableAt, Reach, Reached, ProbeOf,
      PlanOf, Replay, Makes, DistinctPaths;
    StopsAt(cfg, d, s);
    StoppedSession(cfg, d, s);
    ReadyIsActive(cfg, d, s);
    ReadyIsPlan(cfg, d, s);
    PlanCount(LoadAll(s.entries), Contents(ProbeOf(cfg, d.files)));
    StoppedPath(cfg, d, s, "");
  }

  /** The other staged paths are the other files of the plan. */
  lemma OthersRecommit(cfg: Config, d: Disk, s: Sess)
    requires Stopped(cfg, d, s)
    ensures var files, k, left := Ready(cfg, d, s).value, DoneBy(cfg, d, s), Left(cfg, d, s);
            k < |files| &&
            (OthersFit(cfg, left.disk.files, left.sess, files[k].path) <==>
             forall i :: 0 <= i < |files| && i != k ==> Recommits(cfg, d, s, i))
  {
    hide Left, Ready, DoCommit, Sound, LoadAll, Mine, DoneBy, Fits, ReadState, Recommits, BytesAt, Committable, WritableAt,
      Reach, Reached, Replay, PlanOf, ProbeOf, PathsOf;
    var files, k, left := Ready(cfg, d, s).value, DoneBy(cfg, d, s), Left(cfg, d, s);
    StopsAt(cfg, d, s);
    SessionLeft(cfg, d, s);
    PlanHolds(cfg, d, s);
    forall i | 0 <= i < |files| && i != k
      ensures Fits(cfg, left.disk.files, Mine(s, files[i].path), files[i].path) <==> Recommits(cfg, d, s, i)
      ensures files[i].path != files[k].path && Mine(s, files[i].path) != []
    {
      FitsLater(cfg, d, s, i);
    }
    if forall i :: 0 <= i < |files| && i != k ==> Recommits(cfg, d, s, i) {
      forall p | p != files[k].path && Mine(left.sess, p) != [] ensures Fits(cfg, left.disk.files, Mine(left.sess, p), p) {
        var i :| 0 <= i < |files| && files[i].path == p;
      }
    }
  }

  lemma PlanHolds(cfg: Config, d: Disk, s: Sess)
    requires Ready(cfg, d, s).Some?
    ensures forall p :: Mine(s, p) != [] ==> exists i :: 0 <= i < |Ready(cfg, d, s).value| && Ready(cfg, d, s).value[i].path == p
  {
    hide Ready, LoadAll, ChangesFor, PlanOf, ProbeOf, Replay;
    ReadyIsPlan(cfg, d, s);
    PlanIsPerFile(LoadAll(s.entries), Contents(ProbeOf(cfg, d.files)));
  }
}

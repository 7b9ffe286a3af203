/** Checking a session's staged changes against the disk and rebasing them (session_service.cpp:
    recovery_check, recovery_rebase). */
module Recovery {
  import opened Text
  import opened ChangeRecord
  import opened ChangeRoundTrip
  import opened TextLines
  import opened Selectors
  import opened Edits
  import opened Names
  import opened Plan

  /** fingerprint_file: a missing file has the content "" and the time "missing". */
  datatype Fingerprint = Fingerprint(content: string, hash: string, mtime: string)

  /** The fingerprint of a path, or None for a path outside the workspace. */
  type Probe = string -> Option<Fingerprint>

  function Contents(probe: Probe): Reader
  {
    (path: string) => match probe(path) case None => None case Some(fp) => Some(fp.content)
  }

  datatype Status = Clean | RebaseRequired | Conflict

  datatype CheckedFile = CheckedFile(path: string, status: Status, baseHash: string, currentHash: string)

  datatype Checked = Checked(files: seq<CheckedFile>, rebases: nat, conflicts: nat)

  // ----- The check of one file -----------------------------------------------------------

  predicate Drifted(c: StagedChange, fp: Fingerprint)
  {
    (c.baseHash != [] && c.baseHash != fp.hash) || (c.baseMtime != [] && c.baseMtime != fp.mtime)
  }

  datatype Trial = Trial(content: string, ok: bool)

  /** The check's own replay: a change that cannot be rebased is skipped and spoils the trial. */
  function Try(changes: seq<StagedChange>, content: string): Trial
  {
    if changes == [] then Trial(content, true)
    else
      var t, c := Try(changes[..|changes| - 1], content), changes[|changes| - 1];
      match (if CanRebase(c, t.content) then Apply(c, t.content) else None)
      case None => Trial(t.content, false)
      case Some(next) => Trial(next, t.ok)
  }

  function StatusOf(changes: seq<StagedChange>, fp: Fingerprint): Status
    requires changes != []
  {
    if !Drifted(changes[0], fp) then Clean
    else if Try(changes, fp.content).ok then RebaseRequired
    else Conflict
  }

  function CheckFile(path: string, changes: seq<StagedChange>, fp: Fingerprint): CheckedFile
    requires changes != []
  {
    CheckedFile(path, StatusOf(changes, fp), changes[0].baseHash, fp.hash)
  }

  // ----- The check of a session ----------------------------------------------------------

  function Count(files: seq<CheckedFile>, status: Status): nat
  {
    if files == [] then 0
    else Count(files[..|files| - 1], status) + if files[|files| - 1].status == status then 1 else 0
  }

  ghost predicate Probed(changes: seq<StagedChange>, probe: Probe)
  {
    forall p :: p in PathsOf(changes) ==> probe(p).Some?
  }

  ghost predicate Staged(changes: seq<StagedChange>, paths: seq<string>)
  {
    forall i :: 0 <= i < |paths| ==> ChangesFor(changes, paths[i]) != []
  }

  ghost function CheckFiles(changes: seq<StagedChange>, probe: Probe, paths: seq<string>): (files: seq<CheckedFile>)
    requires Staged(changes, paths)
    requires forall i :: 0 <= i < |paths| ==> probe(paths[i]).Some?
    ensures |files| == |paths|
    ensures forall i :: 0 <= i < |paths| ==>
              files[i] == CheckFile(paths[i], ChangesFor(changes, paths[i]), probe(paths[i]).value)
  {
    seq(|paths|, i requires 0 <= i < |paths| =>
      CheckFile(paths[i], ChangesFor(changes, paths[i]), probe(paths[i]).value))
  }

  lemma PathsStaged(changes: seq<StagedChange>)
    ensures Staged(changes, PathsOf(changes))
  {
    hide ChangesFor, PathsOf;
    PathsSorted(changes);
    forall i | 0 <= i < |PathsOf(changes)| ensures ChangesFor(changes, PathsOf(changes)[i]) != [] {
      assert PathsOf(changes)[i] in PathsOf(changes);
    }
  }

  ghost function Check(changes: seq<StagedChange>, probe: Probe): Option<Checked>
  {
    if Probed(changes, probe) then
      PathsStaged(changes);
      var files := CheckFiles(changes, probe, PathsOf(changes));
      Some(Checked(files, Count(files, RebaseRequired), Count(files, Conflict)))
    else None
  }

  // ----- Rebasing ------------------------------------------------------------------------

  /** A change as it is read back once stored. */
  function Reload(c: StagedChange): StagedChange
  {
    DeserializedChange(SerializedChange(c))
  }

  function Restaged(c: StagedChange, fp: Fingerprint): StagedChange
  {
    c.(baseHash := fp.hash, baseMtime := fp.mtime)
  }

  /** The changes of the files in `need` stored again on the base they now have. */
  function RestageAll(changes: seq<StagedChange>, need: set<string>, probe: Probe): (out: seq<StagedChange>)
    requires forall p :: p in need ==> probe(p).Some?
    ensures |out| == |changes|
  {
    if changes == [] then []
    else
      var last := changes[|changes| - 1];
      RestageAll(changes[..|changes| - 1], need, probe) +
      [if last.path in need then Reload(Restaged(last, probe(last.path).value)) else last]
  }

  ghost predicate Due(changes: seq<StagedChange>, probe: Probe, p: string)
  {
    ChangesFor(changes, p) != [] && probe(p).Some? && StatusOf(ChangesFor(changes, p), probe(p).value) == RebaseRequired
  }

  /** The files a check finds in need of a rebase. */
  ghost function DuePaths(changes: seq<StagedChange>, probe: Probe): (need: set<string>)
    ensures forall p :: p in need ==> probe(p).Some?
  {
    set p | p in PathsOf(changes) && Due(changes, probe, p)
  }

  /** The staged changes a rebase leaves. */
  ghost function Rebased(changes: seq<StagedChange>, probe: Probe): seq<StagedChange>
  {
    RestageAll(changes, DuePaths(changes, probe), probe)
  }

  // ----- What a rebase certifies ---------------------------------------------------------

  /** Neither the base nor the risk of a change has a part in replaying it. */
  lemma ReplayIgnoresBase(c: StagedChange, d: StagedChange, content: string)
    requires d.(baseHash := c.baseHash, baseMtime := c.baseMtime, risk := c.risk) == c
    ensures Apply(c, content) == Apply(d, content)
  {
  }

  lemma ReloadKeepsEdit(c: StagedChange)
    requires SizesFit(c)
    ensures Reload(c).(risk := c.risk) == c
  {
    hide SerializedChange, DeserializedChange;
    StoreThenLoad(c);
  }

  lemma {:induction false} RestagePerFile(changes: seq<StagedChange>, need: set<string>, probe: Probe, p: string)
    requires forall q :: q in need ==> probe(q).Some?
    requires forall i :: 0 <= i < |changes| ==> SizesFit(changes[i])
    ensures ChangesFor(RestageAll(changes, need, probe), p) == RestageAll(ChangesFor(changes, p), need, probe)
    ensures PathsOf(RestageAll(changes, need, probe)) == PathsOf(changes)
  {
    hide Reload, Insert, SizesFit;
    if changes != [] {
      var front, last := changes[..|changes| - 1], changes[|changes| - 1];
      RestagePerFile(front, need, probe, p);
      var out := RestageAll(changes, need, probe);
      assert out[..|front|] == RestageAll(front, need, probe);
      if last.path in need { RestagedKeeps(last, probe(last.path).value); }
      if last.path == p {
        var mine := ChangesFor(front, p);
        assert (mine + [last])[..|mine|] == mine;
      }
    }
  }

  lemma RestagedKeeps(c: StagedChange, fp: Fingerprint)
    requires SizesFit(c)
    ensures var d := Reload(Restaged(c, fp));
            d.path == c.path && d.baseHash == fp.hash && d.baseMtime == fp.mtime &&
            d.(baseHash := c.baseHash, baseMtime := c.baseMtime, risk := c.risk) == c
  {
    hide Reload;
    ReloadKeepsEdit(Restaged(c, fp));
  }

  /** Replaying a file's rebased changes is replaying the changes themselves. */
  lemma {:induction false} RestageReplays(changes: seq<StagedChange>, need: set<string>, probe: Probe, content: string)
    requires forall q :: q in need ==> probe(q).Some?
    requires forall i :: 0 <= i < |changes| ==> SizesFit(changes[i])
    ensures Replay(RestageAll(changes, need, probe), content) == Replay(changes, content)
  {
    hide Apply, Reload, Restaged, SizesFit;
    if changes != [] {
      var front, last := changes[..|changes| - 1], changes[|changes| - 1];
      RestageReplays(front, need, probe, content);
      var out := RestageAll(changes, need, probe);
      assert out[..|front|] == RestageAll(front, need, probe);
      if last.path in need {
        RestagedKeeps(last, probe(last.path).value);
        if Replay(front, content).Some? {
          ReplayIgnoresBase(last, out[|front|], Replay(front, content).value);
        }
      }
    }
  }

  lemma {:induction false} RestageFirst(changes: seq<StagedChange>, need: set<string>, probe: Probe)
    requires forall q :: q in need ==> probe(q).Some?
    requires changes != [] && SizesFit(changes[0])
    ensures var c, d := changes[0], RestageAll(changes, need, probe)[0];
            c.path !in need ==> d == c
    ensures var c, d := changes[0], RestageAll(changes, need, probe)[0];
            c.path in need ==> !Drifted(d, probe(c.path).value)
  {
    hide Reload, Restaged, SizesFit;
    if |changes| > 1 {
      RestageFirst(changes[..|changes| - 1], need, probe);
    } else if changes[0].path in need {
      RestagedKeeps(changes[0], probe(changes[0].path).value);
    }
  }

  /** A trial that went through is a replay that succeeds. */
  lemma {:induction false} TrialReplays(changes: seq<StagedChange>, content: string)
    ensures Try(changes, content).ok ==> Replay(changes, content) == Some(Try(changes, content).content)
  {
    hide Apply, CanRebase;
    if changes != [] { TrialReplays(changes[..|changes| - 1], content); }
  }

  /** What a change asks of a content it is rebased on, said of the content alone: it is still the one that
      was expected, or it still has the expected lines in the range, or the target is still there and its
      query is what was expected. */
  ghost predicate StillFits(c: StagedChange, content: string)
  {
    match OperationOf(c.operation)
    case ReplaceContent => c.expectedContent == "" || content == c.expectedContent
    case ReplaceRange =>
      exists front, target, tail ::
        RangeParts(c, DocLines(content), front, target, tail) && Joined(target) == c.expectedContent
    case Unsupported => false
    case _ => Resolve(content, c.selector).Some? && (c.expectedContent == "" || c.expectedContent == c.selector.query)
  }

  lemma RangeStillFits(c: StagedChange, content: string)
    requires OperationOf(c.operation) == ReplaceRange
    ensures StillFits(c, content) <==> CanRebase(c, content) && Apply(c, content).Some?
  {
    hide OperationOf, DocLines, Joined, Apply, CanRebase, JoinLines;
    var lines := DocLines(content);
    if 1 <= c.lineStart <= c.lineEnd <= |lines| {
      var front, target, tail := lines[..c.lineStart - 1], lines[c.lineStart - 1..c.lineEnd], lines[c.lineEnd..];
      assert RangeParts(c, lines, front, target, tail);
      RangeEdit(c, content, front, target, tail);
      forall f, g, h | RangeParts(c, lines, f, g, h) ensures g == target {
        assert (f + g + h)[|f|..|f| + |g|] == g;
      }
    } else {
      NoRangeEdit(c, content);
    }
  }

  lemma FitIsExact(c: StagedChange, content: string)
    ensures StillFits(c, content) <==> CanRebase(c, content) && Apply(c, content).Some?
  {
    hide OperationOf, DocLines, Joined, Resolve, JoinLines;
    if OperationOf(c.operation) == ReplaceRange {
      RangeStillFits(c, content);
    } else if OperationOf(c.operation) in {ReplaceBlock, InsertBefore, InsertAfter, DeleteBlock} && Resolve(content, c.selector).Some? {
      var front, tail := BlockEdit(c, content);
    }
  }

  /** A trial goes through exactly when the changes replay and each of them still fits what the ones before
      it leave. */
  lemma {:induction false} TrialIsExact(changes: seq<StagedChange>, content: string)
    ensures Try(changes, content).ok <==>
            forall i :: 0 <= i < |changes| ==>
              Replay(changes[..i], content).Some? && StillFits(changes[i], Replay(changes[..i], content).value)
    ensures Try(changes, content).ok ==> Replay(changes, content).Some?
  {
    hide Apply, CanRebase, StillFits;
    if changes != [] {
      var front, last := changes[..|changes| - 1], changes[|changes| - 1];
      TrialIsExact(front, content);
      TrialReplays(front, content);
      assert forall i :: 0 <= i < |front| ==> front[..i] == changes[..i];
      if Replay(front, content).Some? { FitIsExact(last, Replay(front, content).value); }
    }
  }

  /** The file still shows the base that a change records; what was not recorded is not compared. */
  predicate BaseShown(c: StagedChange, fp: Fingerprint)
  {
    c.baseHash in {"", fp.hash} && c.baseMtime in {"", fp.mtime}
  }

  /** The status of a file, whatever its changes are: clean as long as it shows the base of its first change;
      otherwise due for a rebase if each change still fits what the ones before it leave of the file, else
      in conflict. */
  lemma StatusIsExact(changes: seq<StagedChange>, fp: Fingerprint)
    requires changes != []
    ensures StatusOf(changes, fp) ==
            if BaseShown(changes[0], fp) then Clean
            else if forall i :: 0 <= i < |changes| ==>
              Replay(changes[..i], fp.content).Some? && StillFits(changes[i], Replay(changes[..i], fp.content).value)
            then RebaseRequired
            else Conflict
  {
    hide Try, Replay, StillFits;
    TrialIsExact(changes, fp.content);
  }

  lemma FirstReplay(changes: seq<StagedChange>, content: string)
    ensures Replay(changes[..0], content) == Some(content)
  {
  }

  /** The change replaces the whole file and expected something else, or replaces a range of lines that are
      others by now, or gone. */
  predicate Overtaken(c: StagedChange, content: string)
  {
    (c.operation == "replace_content" && c.expectedContent !in {"", content}) ||
    (c.operation == "replace_range" &&
     (|DocLines(content)| < c.lineEnd ||
      (1 <= c.lineStart <= c.lineEnd && Joined(DocLines(content)[c.lineStart - 1..c.lineEnd]) != c.expectedContent)))
  }

  /** A foreign edit is kept: a file that has drifted is in conflict if its first change is overtaken. */
  lemma ForeignEditConflicts(changes: seq<StagedChange>, fp: Fingerprint)
    requires changes != [] && !BaseShown(changes[0], fp)
    requires Overtaken(changes[0], fp.content)
    ensures StatusOf(changes, fp) == Conflict
  {
    hide Replay, DocLines, Joined, Try, Drifted;
    var c := changes[0];
    StatusIsExact(changes, fp);
    FirstReplay(changes, fp.content);
  }

  lemma {:induction false} OwnPath(changes: seq<StagedChange>, p: string)
    ensures forall i :: 0 <= i < |ChangesFor(changes, p)| ==> ChangesFor(changes, p)[i].path == p
    ensures forall i :: 0 <= i < |ChangesFor(changes, p)| ==> ChangesFor(changes, p)[i] in changes
  {
    if changes != [] {
      var front := changes[..|changes| - 1];
      OwnPath(front, p);
      forall c | c in front ensures c in changes { }
    }
  }

  lemma {:induction false} NoneCounted(files: seq<CheckedFile>, status: Status)
    ensures Count(files, status) == 0 <==> forall i :: 0 <= i < |files| ==> files[i].status != status
  {
    if files != [] { NoneCounted(files[..|files| - 1], status); }
  }

  /** The check's list holds each staged file once, in path order, with the base it was staged on and the hash it
      has now, and marks exactly the files due for a rebase. */
  lemma MarkedFiles(changes: seq<StagedChange>, probe: Probe, i: nat)
    requires Check(changes, probe).Some? && i < |PathsOf(changes)|
    ensures var files, p := Check(changes, probe).value.files, PathsOf(changes)[i];
            |files| == |PathsOf(changes)| && files[i].path == p &&
            ChangesFor(changes, p) != [] && files[i].baseHash == ChangesFor(changes, p)[0].baseHash &&
            probe(p).Some? && files[i].currentHash == probe(p).value.hash &&
            (files[i].status == RebaseRequired <==> p in DuePaths(changes, probe))
  {
    hide ChangesFor, PathsOf, StatusOf, Count;
    PathsStaged(changes);
    assert PathsOf(changes)[i] in PathsOf(changes);
  }

  /** One file of a rebased session: clean from now on, and its changes replay to exactly the
      content the check computed. */
  lemma RebasedFile(changes: seq<StagedChange>, probe: Probe, p: string)
    requires forall i :: 0 <= i < |changes| ==> SizesFit(changes[i])
    requires ChangesFor(changes, p) != [] && probe(p).Some?
    requires StatusOf(ChangesFor(changes, p), probe(p).value) != Conflict
    ensures var next, fp := Rebased(changes, probe), probe(p).value;
            ChangesFor(next, p) != [] && StatusOf(ChangesFor(next, p), fp) == Clean &&
            Replay(ChangesFor(next, p), fp.content) == Replay(ChangesFor(changes, p), fp.content)
    ensures p in DuePaths(changes, probe) ==>
              Replay(ChangesFor(changes, p), probe(p).value.content) ==
              Some(Try(ChangesFor(changes, p), probe(p).value.content).content)
  {
    hide ChangesFor, PathsOf, RestageAll, Replay, Try, Drifted, SizesFit;
    var need := DuePaths(changes, probe);
    PathsSorted(changes);
    assert p in PathsOf(changes);
    var mine, content := ChangesFor(changes, p), probe(p).value.content;
    RestagePerFile(changes, need, probe, p);
    OwnPath(changes, p);
    RestageReplays(mine, need, probe, content);
    RestageFirst(mine, need, probe);
    TrialReplays(mine, content);
    assert mine[0].path == p;
  }

  lemma NoneOf(changes: seq<StagedChange>, probe: Probe, status: Status, p: string)
    requires Check(changes, probe).Some? && Count(Check(changes, probe).value.files, status) == 0
    requires p in PathsOf(changes)
    ensures probe(p).Some? && ChangesFor(changes, p) != [] &&
            StatusOf(ChangesFor(changes, p), probe(p).value) != status
  {
    hide ChangesFor, PathsOf, StatusOf, Count;
    PathsStaged(changes);
    var files, paths := Check(changes, probe).value.files, PathsOf(changes);
    NoneCounted(files, status);
    var i :| 0 <= i < |paths| && paths[i] == p;
    assert files[i].status != status;
  }

  lemma NoConflict(changes: seq<StagedChange>, probe: Probe, p: string)
    requires Check(changes, probe).Some? && Check(changes, probe).value.conflicts == 0
    requires p in PathsOf(changes)
    ensures probe(p).Some? && ChangesFor(changes, p) != [] &&
            StatusOf(ChangesFor(changes, p), probe(p).value) != Conflict
  {
    hide ChangesFor, PathsOf, StatusOf, Count, Check;
    CheckCounts(changes, probe);
    NoneOf(changes, probe, Conflict, p);
  }

  /** A check finds neither conflicts nor files to rebase exactly when every staged file can be read and shows
      the base of its first change. */
  lemma CleanIsExact(changes: seq<StagedChange>, probe: Probe)
    ensures var check := Check(changes, probe);
            check.Some? && check.value.rebases == 0 && check.value.conflicts == 0 <==>
            forall p :: ChangesFor(changes, p) != [] ==> probe(p).Some? && BaseShown(ChangesFor(changes, p)[0], probe(p).value)
  {
    hide ChangesFor, PathsOf, StatusOf, Count, Check, BaseShown;
    PathsSorted(changes);
    forall p | ChangesFor(changes, p) != [] && probe(p).Some?
      ensures StatusOf(ChangesFor(changes, p), probe(p).value) == Clean <==> BaseShown(ChangesFor(changes, p)[0], probe(p).value)
    {
      StatusIsExact(ChangesFor(changes, p), probe(p).value);
    }
    var check := Check(changes, probe);
    if check.Some? && check.value.rebases == 0 && check.value.conflicts == 0 {
      CheckCounts(changes, probe);
      forall p | ChangesFor(changes, p) != [] ensures probe(p).Some? && BaseShown(ChangesFor(changes, p)[0], probe(p).value) {
        NoneOf(changes, probe, RebaseRequired, p);
        NoneOf(changes, probe, Conflict, p);
      }
    } else if forall p :: ChangesFor(changes, p) != [] ==> probe(p).Some? && BaseShown(ChangesFor(changes, p)[0], probe(p).value) {
      CleanCheck(changes, probe);
    }
  }

  /** Every staged file of a rebased session: clean, and with the replay it had. */
  lemma RebasedFiles(changes: seq<StagedChange>, probe: Probe, p: string)
    requires forall i :: 0 <= i < |changes| ==> SizesFit(changes[i])
    requires Check(changes, probe).Some? && Check(changes, probe).value.conflicts == 0 && p in PathsOf(changes)
    ensures var next := Rebased(changes, probe);
            probe(p).Some? && ChangesFor(next, p) != [] && StatusOf(ChangesFor(next, p), probe(p).value) == Clean &&
            Replay(ChangesFor(next, p), probe(p).value.content) == Replay(ChangesFor(changes, p), probe(p).value.content)
    ensures p in DuePaths(changes, probe) ==>
              Replay(ChangesFor(changes, p), probe(p).value.content) ==
              Some(Try(ChangesFor(changes, p), probe(p).value.content).content)
  {
    hide Check, ChangesFor, PathsOf, Rebased, DuePaths, Replay, Try, StatusOf, SizesFit;
    NoConflict(changes, probe, p);
    RebasedFile(changes, probe, p);
  }

  /** With the disk unchanged, the check after a rebase finds every file clean. */
  lemma RebaseIsClean(changes: seq<StagedChange>, probe: Probe)
    requires forall i :: 0 <= i < |changes| ==> SizesFit(changes[i])
    requires Check(changes, probe).Some? && Check(changes, probe).value.conflicts == 0
    ensures var next := Rebased(changes, probe);
            PathsOf(next) == PathsOf(changes) && Check(next, probe).Some? &&
            Check(next, probe).value.rebases == 0 && Check(next, probe).value.conflicts == 0
  {
    hide Check, ChangesFor, PathsOf, Rebased, DuePaths, Replay, Try, StatusOf, SizesFit;
    RebasedPaths(changes, probe);
    var next := Rebased(changes, probe);
    forall p | p in PathsOf(next)
      ensures probe(p).Some? && ChangesFor(next, p) != [] && StatusOf(ChangesFor(next, p), probe(p).value) == Clean
    {
      RebasedFiles(changes, probe, p);
    }
    CleanCheck(next, probe);
  }

  /** A rebased file replays, and to exactly the content the check computed for it; any other staged
      file replays as before. */
  lemma RebaseReplays(changes: seq<StagedChange>, probe: Probe, p: string)
    requires forall i :: 0 <= i < |changes| ==> SizesFit(changes[i])
    requires Check(changes, probe).Some? && Check(changes, probe).value.conflicts == 0 && p in PathsOf(changes)
    ensures probe(p).Some? &&
            Replay(ChangesFor(Rebased(changes, probe), p), probe(p).value.content) ==
            if p in DuePaths(changes, probe) then Some(Try(ChangesFor(changes, p), probe(p).value.content).content)
            else Replay(ChangesFor(changes, p), probe(p).value.content)
  {
    hide Check, ChangesFor, PathsOf, Rebased, DuePaths, Replay, Try, StatusOf, SizesFit;
    RebasedFiles(changes, probe, p);
  }

  /** A rebased session has a plan as soon as the files that were clean all along replay. */
  lemma RebasePlans(changes: seq<StagedChange>, probe: Probe)
    requires forall i :: 0 <= i < |changes| ==> SizesFit(changes[i])
    requires Check(changes, probe).Some? && Check(changes, probe).value.conflicts == 0
    ensures PlanOf(Rebased(changes, probe), Contents(probe)).Some? <==>
            forall p :: p in PathsOf(changes) && p !in DuePaths(changes, probe) ==> Replays(changes, Contents(probe), p)
  {
    hide Check, ChangesFor, PathsOf, Rebased, DuePaths, Replay, Try, SizesFit, PlanFiles;
    var next := Rebased(changes, probe);
    RebasedPaths(changes, probe);
    forall p | p in PathsOf(changes)
      ensures Replays(next, Contents(probe), p) <==> p in DuePaths(changes, probe) || Replays(changes, Contents(probe), p)
    {
      RebaseReplays(changes, probe, p);
    }
  }

  lemma RebasedPaths(changes: seq<StagedChange>, probe: Probe)
    requires forall i :: 0 <= i < |changes| ==> SizesFit(changes[i])
    ensures PathsOf(Rebased(changes, probe)) == PathsOf(changes)
  {
    hide ChangesFor, PathsOf, RestageAll, SizesFit;
    RestagePerFile(changes, DuePaths(changes, probe), probe, "");
  }

  lemma CheckWithout(changes: seq<StagedChange>, probe: Probe, status: Status)
    requires Probed(changes, probe)
    requires forall p :: p in PathsOf(changes) ==>
               ChangesFor(changes, p) != [] && StatusOf(ChangesFor(changes, p), probe(p).value) != status
    ensures Check(changes, probe).Some? && Count(Check(changes, probe).value.files, status) == 0
  {
    hide ChangesFor, PathsOf, StatusOf, Count;
    PathsStaged(changes);
    var files := CheckFiles(changes, probe, PathsOf(changes));
    forall i | 0 <= i < |files| ensures files[i].status != status {
      assert PathsOf(changes)[i] in PathsOf(changes);
    }
    NoneCounted(files, status);
  }

  lemma CheckCounts(changes: seq<StagedChange>, probe: Probe)
    requires Check(changes, probe).Some?
    ensures var check := Check(changes, probe).value;
            check.rebases == Count(check.files, RebaseRequired) && check.conflicts == Count(check.files, Conflict)
  {
    hide Count, PathsOf, CheckFiles;
  }

  lemma CleanCheck(changes: seq<StagedChange>, probe: Probe)
    requires Probed(changes, probe)
    requires forall p :: p in PathsOf(changes) ==>
               ChangesFor(changes, p) != [] && StatusOf(ChangesFor(changes, p), probe(p).value) == Clean
    ensures Check(changes, probe).Some?
    ensures Check(changes, probe).value.rebases == 0 && Check(changes, probe).value.conflicts == 0
  {
    hide ChangesFor, PathsOf, StatusOf, Count, Check;
    CheckWithout(changes, probe, RebaseRequired);
    CheckWithout(changes, probe, Conflict);
    CheckCounts(changes, probe);
  }

  // ----- The loops -----------------------------------------------------------------------

  /** The inner loop of recovery_check. */
  method TryChanges(changes: seq<StagedChange>, content: string) returns (t: Trial)
    ensures t == Try(changes, content)
  {
    hide Apply, CanRebase;
    var canRebase, stagedBase := true, content;
    for i := 0 to |changes|
      invariant Try(changes[..i], content) == Trial(stagedBase, canRebase)
    {
      assert changes[..i + 1][..i] == changes[..i];
      if !CanRebase(changes[i], stagedBase) {
        canRebase := false;
        continue;
      }
      var next := ApplyChangeToContent(changes[i], stagedBase);
      if next.None? {
        canRebase := false;
        continue;
      }
      stagedBase := next.value;
    }
    assert changes[..|changes|] == changes;
    t := Trial(stagedBase, canRebase);
  }

  ghost predicate Grouped(changes: seq<StagedChange>, paths: seq<string>, byPath: map<string, seq<StagedChange>>)
  {
    paths == PathsOf(changes) && (forall p :: p in byPath <==> p in paths) &&
    forall p :: p in byPath ==> byPath[p] == ChangesFor(changes, p) && byPath[p] != []
  }

  lemma GroupStep(changes: seq<StagedChange>, last: StagedChange, paths: seq<string>, byPath: map<string, seq<StagedChange>>)
    requires Grouped(changes, paths, byPath)
    ensures var p := last.path;
            var mine := if p in byPath then byPath[p] else [];
            Grouped(changes + [last], Insert(paths, p), byPath[p := mine + [last]])
  {
    hide ChangesFor, PathsOf, Insert;
    var p := last.path;
    PathsSorted(changes);
    InsertSorted(paths, p);
    LastChangeOf(changes, last, p);
    var next := byPath[p := (if p in byPath then byPath[p] else []) + [last]];
    forall q | q in next ensures next[q] == ChangesFor(changes + [last], q) && next[q] != [] {
      LastChangeOf(changes, last, q);
    }
  }

  method GroupChanges(changes: seq<StagedChange>) returns (paths: seq<string>, byPath: map<string, seq<StagedChange>>)
    ensures Grouped(changes, paths, byPath)
  {
    hide ChangesFor, PathsOf, Insert, Grouped;
    paths, byPath := [], map[];
    NothingGrouped();
    for i := 0 to |changes|
      invariant Grouped(changes[..i], paths, byPath)
    {
      GroupStep(changes[..i], changes[i], paths, byPath);
      assert changes[..i + 1] == changes[..i] + [changes[i]];
      var p := changes[i].path;
      var mine := if p in byPath then byPath[p] else [];
      byPath := byPath[p := mine + [changes[i]]];
      paths := Insert(paths, p);
    }
    assert changes[..|changes|] == changes;
  }

  lemma NothingGrouped()
    ensures Grouped([], [], map[])
  {
  }

  /** recovery_check */
  method RecoveryCheck(changes: seq<StagedChange>, probe: Probe) returns (checked: Option<Checked>)
    ensures checked == Check(changes, probe)
  {
    hide ChangesFor, PathsOf, Count, Try, Drifted;
    var paths, byPath := GroupChanges(changes);
    var files, rebases, conflicts := [], 0, 0;
    PathsStaged(changes);
    CountNone();
    for i := 0 to |paths|
      invariant |files| == i
      invariant forall j :: 0 <= j < i ==> probe(paths[j]).Some?
      invariant forall j :: 0 <= j < i ==>
                  files[j] == CheckFile(paths[j], ChangesFor(changes, paths[j]), probe(paths[j]).value)
      invariant rebases == Count(files, RebaseRequired) && conflicts == Count(files, Conflict)
    {
      var path := paths[i];
      assert path in paths;
      var mine := byPath[path];
      var fp := probe(path);
      if fp.None? {
        assert path in PathsOf(changes);
        return None;
      }
      var item := CheckedFile(path, Clean, mine[0].baseHash, fp.value.hash);
      if Drifted(mine[0], fp.value) {
        var t := TryChanges(mine, fp.value.content);
        if t.ok {
          item := item.(status := RebaseRequired);
          rebases := rebases + 1;
        } else {
          item := item.(status := Conflict);
          conflicts := conflicts + 1;
        }
      }
      CountStep(files, item, RebaseRequired);
      CountStep(files, item, Conflict);
      files := files + [item];
    }
    assert Probed(changes, probe);
    assert files == CheckFiles(changes, probe, paths);
    return Some(Checked(files, rebases, conflicts));
  }

  lemma CountNone()
    ensures Count([], RebaseRequired) == 0 && Count([], Conflict) == 0
  {
  }

  lemma CountStep(files: seq<CheckedFile>, item: CheckedFile, status: Status)
    ensures Count(files + [item], status) == Count(files, status) + if item.status == status then 1 else 0
  {
    assert (files + [item])[..|files|] == files;
  }
}

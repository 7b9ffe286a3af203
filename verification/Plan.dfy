/** Planning a session: the staged changes replayed file by file (session_service.cpp:
    build_planned_files). */
module Plan {
  import opened Text
  import opened ChangeRecord
  import opened Edits
  import opened Names

  /** What reading a path gives: the content ("" for a missing file), or None for a path outside
      the workspace. */
  type Reader = string -> Option<string>

  datatype PlannedFile = PlannedFile(path: string, currentContent: string, finalContent: string)

  // ----- The changes of one file ---------------------------------------------------------

  function ChangesFor(changes: seq<StagedChange>, path: string): seq<StagedChange>
  {
    if changes == [] then []
    else
      var front, last := ChangesFor(changes[..|changes| - 1], path), changes[|changes| - 1];
      if last.path == path then front + [last] else front
  }

  /** The changes of one file, each applied to what the one before it left. */
  function Replay(changes: seq<StagedChange>, content: string): Option<string>
  {
    if changes == [] then Some(content)
    else
      match Replay(changes[..|changes| - 1], content)
      case None => None
      case Some(next) => Apply(changes[|changes| - 1], next)
  }

  /** The staged paths in the order of a std::map. */
  function PathsOf(changes: seq<StagedChange>): seq<string>
  {
    if changes == [] then []
    else Insert(PathsOf(changes[..|changes| - 1]), changes[|changes| - 1].path)
  }

  predicate Replays(changes: seq<StagedChange>, read: Reader, path: string)
  {
    read(path).Some? && Replay(ChangesFor(changes, path), read(path).value).Some?
  }

  ghost predicate AllReplay(changes: seq<StagedChange>, read: Reader)
  {
    forall p :: p in PathsOf(changes) ==> Replays(changes, read, p)
  }

  function PlannedFor(changes: seq<StagedChange>, read: Reader, path: string): PlannedFile
    requires Replays(changes, read, path)
  {
    PlannedFile(path, read(path).value, Replay(ChangesFor(changes, path), read(path).value).value)
  }

  /** One planned file per staged path, in path order, each with its own changes replayed. */
  ghost function PlanFiles(changes: seq<StagedChange>, read: Reader): (files: seq<PlannedFile>)
    requires AllReplay(changes, read)
    ensures |files| == |PathsOf(changes)|
    ensures forall i :: 0 <= i < |files| ==> files[i] == PlannedFor(changes, read, PathsOf(changes)[i])
  {
    var paths := PathsOf(changes);
    seq(|paths|, i requires 0 <= i < |paths| => PlannedFor(changes, read, paths[i]))
  }

  ghost function PlanOf(changes: seq<StagedChange>, read: Reader): Option<seq<PlannedFile>>
  {
    if AllReplay(changes, read) then Some(PlanFiles(changes, read)) else None
  }

  // ----- Properties of the pieces --------------------------------------------------------

  lemma {:induction false} PathsSorted(changes: seq<StagedChange>)
    ensures Sorted(PathsOf(changes))
    ensures forall p :: p in PathsOf(changes) <==> ChangesFor(changes, p) != []
  {
    if changes != [] {
      var front, last := changes[..|changes| - 1], changes[|changes| - 1];
      PathsSorted(front);
      InsertSorted(PathsOf(front), last.path);
    }
  }

  lemma {:induction false} ChangesForConcat(a: seq<StagedChange>, b: seq<StagedChange>, path: string)
    ensures ChangesFor(a + b, path) == ChangesFor(a, path) + ChangesFor(b, path)
    decreases |b|
  {
    if b == [] {
      assert a + b == a;
    } else {
      assert (a + b)[..|a + b| - 1] == a + b[..|b| - 1];
      ChangesForConcat(a, b[..|b| - 1], path);
    }
  }

  lemma {:induction false} ReplayConcat(a: seq<StagedChange>, b: seq<StagedChange>, content: string)
    ensures Replay(a + b, content) ==
            match Replay(a, content) case None => None case Some(next) => Replay(b, next)
    decreases |b|
  {
    hide Apply;
    if b == [] {
      assert a + b == a;
    } else {
      assert (a + b)[..|a + b| - 1] == a + b[..|b| - 1];
      ReplayConcat(a, b[..|b| - 1], content);
    }
  }

  /** A file that cannot be replayed cannot be repaired by later changes. */
  lemma ReplaysPrefix(changes: seq<StagedChange>, i: nat, read: Reader, path: string)
    requires i <= |changes| && Replays(changes, read, path)
    ensures Replays(changes[..i], read, path)
  {
    hide Apply;
    assert changes == changes[..i] + changes[i..];
    ChangesForConcat(changes[..i], changes[i..], path);
    ReplayConcat(ChangesFor(changes[..i], path), ChangesFor(changes[i..], path), read(path).value);
  }

  lemma AllReplayPrefix(changes: seq<StagedChange>, i: nat, read: Reader)
    requires i <= |changes| && AllReplay(changes, read)
    ensures AllReplay(changes[..i], read)
  {
    hide Replays, PathsOf, ChangesFor;
    forall p | p in PathsOf(changes[..i]) ensures Replays(changes[..i], read, p) {
      PathsSorted(changes[..i]);
      PathsSorted(changes);
      assert changes == changes[..i] + changes[i..];
      ChangesForConcat(changes[..i], changes[i..], p);
      ReplaysPrefix(changes, i, read, p);
    }
  }

  /** A plan depends only on each file's own changes: changes to different files may be staged in
      any interleaving. */
  lemma PlanIgnoresInterleaving(a: seq<StagedChange>, b: seq<StagedChange>, read: Reader)
    requires forall p :: ChangesFor(a, p) == ChangesFor(b, p)
    ensures PlanOf(a, read) == PlanOf(b, read)
  {
    hide ChangesFor, PathsOf, Replay;
    PathsSorted(a);
    PathsSorted(b);
    SortedUnique(PathsOf(a), PathsOf(b));
    assert forall p :: Replays(a, read, p) <==> Replays(b, read, p);
    if AllReplay(a, read) {
      assert PlanFiles(a, read) == PlanFiles(b, read);
    }
  }

  /** The plan exists exactly when every staged file replays, holds each staged path once and in
      strict order, and each final content is that file's own replay. */
  lemma PlanIsPerFile(changes: seq<StagedChange>, read: Reader)
    ensures PlanOf(changes, read).Some? <==>
            forall p :: ChangesFor(changes, p) != [] ==> Replays(changes, read, p)
    ensures PlanOf(changes, read).Some? ==>
            var files := PlanOf(changes, read).value;
            (forall i, j :: 0 <= i < j < |files| ==> Less(files[i].path, files[j].path)) &&
            (forall p :: ChangesFor(changes, p) != [] <==> exists i :: 0 <= i < |files| && files[i].path == p) &&
            forall i :: 0 <= i < |files| ==>
              read(files[i].path) == Some(files[i].currentContent) &&
              Replay(ChangesFor(changes, files[i].path), files[i].currentContent) == Some(files[i].finalContent)
  {
    hide ChangesFor, PathsOf, Replay;
    PathsSorted(changes);
    if AllReplay(changes, read) {
      var files := PlanFiles(changes, read);
      forall p ensures p in PathsOf(changes) <==> exists i :: 0 <= i < |files| && files[i].path == p {
        if p in PathsOf(changes) {
          var i :| 0 <= i < |PathsOf(changes)| && PathsOf(changes)[i] == p;
          assert files[i].path == p;
        }
      }
    }
  }

  // ----- Dropping ------------------------------------------------------------------------

  function WithoutPath(changes: seq<StagedChange>, path: string): seq<StagedChange>
  {
    if changes == [] then []
    else
      var front, last := WithoutPath(changes[..|changes| - 1], path), changes[|changes| - 1];
      if last.path == path then front else front + [last]
  }

  lemma {:induction false} DropLeavesOthers(changes: seq<StagedChange>, path: string, p: string)
    ensures ChangesFor(WithoutPath(changes, path), p) == if p == path then [] else ChangesFor(changes, p)
  {
    if changes != [] {
      var front, last := changes[..|changes| - 1], changes[|changes| - 1];
      DropLeavesOthers(front, path, p);
      if last.path != path {
        var w := WithoutPath(front, path);
        assert (w + [last])[..|w|] == w;
      }
    }
  }

  function WithoutName(names: seq<string>, name: string): seq<string>
  {
    if names == [] then []
    else
      var front, last := WithoutName(names[..|names| - 1], name), names[|names| - 1];
      if last == name then front else front + [last]
  }

  /** A plan without one of its files. */
  function WithoutPlanned(files: seq<PlannedFile>, path: string): seq<PlannedFile>
  {
    if files == [] then []
    else
      var front, last := WithoutPlanned(files[..|files| - 1], path), files[|files| - 1];
      if last.path == path then front else front + [last]
  }

  lemma {:induction false} WithoutNameSorted(names: seq<string>, name: string)
    requires Sorted(names)
    ensures Sorted(WithoutName(names, name))
    ensures forall n :: n in WithoutName(names, name) <==> n in names && n != name
  {
    hide Less;
    if names != [] {
      var front, last := names[..|names| - 1], names[|names| - 1];
      WithoutNameSorted(front, name);
      assert names == front + [last];
      var w := WithoutName(front, name);
      forall i | 0 <= i < |w| ensures Less(w[i], last) {
        assert w[i] in w;
        var j :| 0 <= j < |front| && front[j] == w[i];
        assert Less(names[j], names[|front|]);
      }
    }
  }

  /** The paths staged once a file is dropped. */
  lemma DropPaths(changes: seq<StagedChange>, path: string)
    ensures PathsOf(WithoutPath(changes, path)) == WithoutName(PathsOf(changes), path)
  {
    hide ChangesFor, PathsOf, WithoutPath, WithoutName, Sorted;
    var next := WithoutPath(changes, path);
    PathsSorted(changes);
    PathsSorted(next);
    WithoutNameSorted(PathsOf(changes), path);
    forall p ensures p in PathsOf(next) <==> p in WithoutName(PathsOf(changes), path) {
      DropLeavesOthers(changes, path, p);
    }
    SortedUnique(PathsOf(next), WithoutName(PathsOf(changes), path));
  }

  /** The planned files of some paths. */
  function PlannedAll(changes: seq<StagedChange>, read: Reader, paths: seq<string>): (files: seq<PlannedFile>)
    requires forall p :: p in paths ==> Replays(changes, read, p)
    ensures |files| == |paths|
    ensures forall i :: 0 <= i < |files| ==> files[i] == PlannedFor(changes, read, paths[i])
  {
    seq(|paths|, i requires 0 <= i < |paths| => PlannedFor(changes, read, paths[i]))
  }

  lemma {:induction false} WithoutNameIn(names: seq<string>, name: string)
    ensures forall n :: n in WithoutName(names, name) ==> n in names && n != name
  {
    if names != [] {
      WithoutNameIn(names[..|names| - 1], name);
      assert names == names[..|names| - 1] + [names[|names| - 1]];
    }
  }

  lemma {:induction false} WithoutOnePlanned(changes: seq<StagedChange>, read: Reader, paths: seq<string>, path: string)
    requires forall p :: p in paths ==> Replays(changes, read, p)
    ensures forall p :: p in WithoutName(paths, path) ==> Replays(changes, read, p)
    ensures WithoutPlanned(PlannedAll(changes, read, paths), path) == PlannedAll(changes, read, WithoutName(paths, path))
  {
    hide Replays, ChangesFor, Replay;
    WithoutNameIn(paths, path);
    if paths != [] {
      var front, last := paths[..|paths| - 1], paths[|paths| - 1];
      assert forall p :: p in front ==> p in paths;
      assert last in paths;
      WithoutOnePlanned(changes, read, front, path);
      var all := PlannedAll(changes, read, paths);
      assert all[..|front|] == PlannedAll(changes, read, front);
      assert all[|front|].path == last;
    }
  }

  /** The plan once a file is dropped: there is one exactly when all other staged files replay. */
  lemma DropPlans(changes: seq<StagedChange>, path: string, read: Reader)
    ensures PlanOf(WithoutPath(changes, path), read).Some? <==>
            forall p :: p in PathsOf(changes) && p != path ==> Replays(changes, read, p)
  {
    hide ChangesFor, PathsOf, WithoutPath, WithoutName, Replay, PlanFiles;
    var next := WithoutPath(changes, path);
    DropPaths(changes, path);
    PathsSorted(changes);
    WithoutNameSorted(PathsOf(changes), path);
    forall p | p != path ensures Replays(next, read, p) <==> Replays(changes, read, p) {
      DropLeavesOthers(changes, path, p);
    }
  }

  /** It then holds the entries of the other files, each as those changes alone make it; and if there
      was a plan before, it is that plan without the file. */
  lemma DropPlanIs(changes: seq<StagedChange>, path: string, read: Reader)
    requires PlanOf(WithoutPath(changes, path), read).Some?
    ensures forall p :: p in WithoutName(PathsOf(changes), path) ==> Replays(changes, read, p)
    ensures PlanOf(WithoutPath(changes, path), read) ==
            Some(PlannedAll(changes, read, WithoutName(PathsOf(changes), path)))
    ensures PlanOf(changes, read).Some? ==>
              PlanOf(WithoutPath(changes, path), read) == Some(WithoutPlanned(PlanOf(changes, read).value, path))
  {
    hide ChangesFor, PathsOf, WithoutPath, WithoutName, Replay, WithoutPlanned, Sorted;
    var next, rest := WithoutPath(changes, path), WithoutName(PathsOf(changes), path);
    DropPaths(changes, path);
    DropPlans(changes, path, read);
    PathsSorted(changes);
    WithoutNameSorted(PathsOf(changes), path);
    forall i | 0 <= i < |rest| ensures PlannedFor(next, read, rest[i]) == PlannedFor(changes, read, rest[i]) {
      assert rest[i] in rest;
      DropLeavesOthers(changes, path, rest[i]);
    }
    assert PlanFiles(next, read) == PlannedAll(changes, read, rest);
    if AllReplay(changes, read) {
      WithoutOnePlanned(changes, read, PathsOf(changes), path);
      assert PlanFiles(changes, read) == PlannedAll(changes, read, PathsOf(changes));
    }
  }

  function WithoutChange(changes: seq<StagedChange>, id: string): seq<StagedChange>
  {
    if changes == [] then []
    else
      var front, last := WithoutChange(changes[..|changes| - 1], id), changes[|changes| - 1];
      if last.changeId == id then front else front + [last]
  }

  lemma {:induction false} DropChangePerFile(changes: seq<StagedChange>, id: string, p: string)
    ensures ChangesFor(WithoutChange(changes, id), p) == WithoutChange(ChangesFor(changes, p), id)
  {
    if changes != [] {
      var front, last := changes[..|changes| - 1], changes[|changes| - 1];
      DropChangePerFile(front, id, p);
      var w, mine := WithoutChange(front, id), ChangesFor(front, p);
      assert (w + [last])[..|w|] == w && (mine + [last])[..|mine|] == mine;
    }
  }

  /** The plan once the changes of an id are dropped: there is one exactly when, for every file that
      keeps a change, the changes it keeps replay; and those replays are what it holds. */
  lemma DropChangePlans(changes: seq<StagedChange>, id: string, read: Reader)
    ensures var next := PlanOf(WithoutChange(changes, id), read);
            (next.Some? <==>
              forall p :: WithoutChange(ChangesFor(changes, p), id) != [] ==>
                read(p).Some? && Replay(WithoutChange(ChangesFor(changes, p), id), read(p).value).Some?) &&
            (next.Some? ==>
              (forall p :: WithoutChange(ChangesFor(changes, p), id) != [] <==>
                exists i :: 0 <= i < |next.value| && next.value[i].path == p) &&
              forall i :: 0 <= i < |next.value| ==>
                Replay(WithoutChange(ChangesFor(changes, next.value[i].path), id), next.value[i].currentContent) ==
                Some(next.value[i].finalContent))
  {
    hide ChangesFor, PathsOf, WithoutChange, Replay, PlanOf;
    PlanIsPerFile(WithoutChange(changes, id), read);
    forall p ensures ChangesFor(WithoutChange(changes, id), p) == WithoutChange(ChangesFor(changes, p), id) {
      DropChangePerFile(changes, id, p);
    }
  }

  // ----- The loop ------------------------------------------------------------------------

  /** The loop's map after the changes so far: one entry per staged path, replayed up to here. */
  ghost predicate Built(changes: seq<StagedChange>, read: Reader, paths: seq<string>, byPath: map<string, PlannedFile>)
  {
    paths == PathsOf(changes) && AllReplay(changes, read) &&
    (forall p :: p in byPath <==> p in paths) &&
    forall p :: p in paths ==> byPath[p] == PlannedFor(changes, read, p)
  }

  /** What the loop looks up for the next change: the entry, or a fresh one from the disk. */
  ghost function Entry(byPath: map<string, PlannedFile>, read: Reader, path: string): Option<PlannedFile>
  {
    if path in byPath then Some(byPath[path])
    else match read(path) case None => None case Some(text) => Some(PlannedFile(path, text, text))
  }

  lemma LastChangeOf(changes: seq<StagedChange>, last: StagedChange, p: string)
    ensures ChangesFor(changes + [last], p) ==
            if last.path == p then ChangesFor(changes, p) + [last] else ChangesFor(changes, p)
    ensures PathsOf(changes + [last]) == Insert(PathsOf(changes), last.path)
  {
    hide Insert;
    assert (changes + [last])[..|changes|] == changes;
  }

  lemma ReplaySnoc(changes: seq<StagedChange>, last: StagedChange, content: string)
    ensures Replay(changes + [last], content) ==
            match Replay(changes, content) case None => None case Some(next) => Apply(last, next)
  {
    hide Apply;
    assert (changes + [last])[..|changes|] == changes;
  }

  lemma ReplayNothing(content: string)
    ensures Replay([], content) == Some(content)
  {
  }

  lemma BuiltNothing(read: Reader)
    ensures Built([], read, [], map[])
  {
  }

  /** The entry holds the replay of the path's changes so far. */
  lemma EntryIsReplay(changes: seq<StagedChange>, read: Reader, paths: seq<string>,
                      byPath: map<string, PlannedFile>, last: StagedChange)
    requires Built(changes, read, paths, byPath)
    ensures var e, p := Entry(byPath, read, last.path), last.path;
            Replays(changes + [last], read, p) <==> e.Some? && Apply(last, e.value.finalContent).Some?
    ensures var e, p := Entry(byPath, read, last.path), last.path;
            Replays(changes + [last], read, p) ==>
            PlannedFor(changes + [last], read, p) ==
            e.value.(finalContent := Apply(last, e.value.finalContent).value)
  {
    hide Apply, Replay, ChangesFor, PathsOf, Insert;
    var p := last.path;
    LastChangeOf(changes, last, p);
    PathsSorted(changes);
    if read(p).Some? {
      ReplaySnoc(ChangesFor(changes, p), last, read(p).value);
      ReplayNothing(read(p).value);
    }
  }

  lemma BuiltStep(changes: seq<StagedChange>, read: Reader, paths: seq<string>,
                  byPath: map<string, PlannedFile>, last: StagedChange, file: PlannedFile)
    requires Built(changes, read, paths, byPath)
    requires Replays(changes + [last], read, last.path)
    requires file == PlannedFor(changes + [last], read, last.path)
    ensures Built(changes + [last], read, Insert(paths, last.path), byPath[last.path := file])
  {
    hide Replay, ChangesFor, PathsOf, Insert;
    PathsSorted(changes);
    LastChangeOf(changes, last, last.path);
    InsertSorted(paths, last.path);
    forall p | p in Insert(paths, last.path) && p != last.path
      ensures Replays(changes + [last], read, p)
      ensures PlannedFor(changes + [last], read, p) == PlannedFor(changes, read, p)
    {
      LastChangeOf(changes, last, p);
    }
  }

  /** One staged file that does not replay leaves no plan. */
  lemma NoPlan(changes: seq<StagedChange>, i: nat, read: Reader)
    requires i < |changes| && !Replays(changes[..i + 1], read, changes[i].path)
    ensures PlanOf(changes, read).None?
  {
    hide Replays, ChangesFor, PathsOf, Insert;
    var front := changes[..i + 1];
    assert front == changes[..i] + [changes[i]];
    LastChangeOf(changes[..i], changes[i], changes[i].path);
    PathsSorted(front);
    if AllReplay(changes, read) {
      AllReplayPrefix(changes, i + 1, read);
    }
  }

  lemma BuiltIsPlan(changes: seq<StagedChange>, read: Reader, paths: seq<string>, byPath: map<string, PlannedFile>)
    requires Built(changes, read, paths, byPath)
    ensures AllReplay(changes, read) && PlanOf(changes, read) == Some(PlanFiles(changes, read))
    ensures |PlanFiles(changes, read)| == |paths|
    ensures forall i :: 0 <= i < |paths| ==> paths[i] in byPath && PlanFiles(changes, read)[i] == byPath[paths[i]]
  {
    hide PathsOf, ChangesFor, Replay, PlannedFor;
    forall i | 0 <= i < |paths| ensures paths[i] in byPath && PlanFiles(changes, read)[i] == byPath[paths[i]] {
      assert paths[i] in paths;
    }
  }

  /** build_planned_files: a map from paths to planned files, updated change by change. */
  method BuildPlannedFiles(changes: seq<StagedChange>, read: Reader) returns (planned: Option<seq<PlannedFile>>)
    ensures planned == PlanOf(changes, read)
  {
    hide Apply, Replays, ChangesFor, PathsOf, Insert, Built, PlanOf, PlannedFor;
    var paths: seq<string> := [];
    var byPath: map<string, PlannedFile> := map[];
    BuiltNothing(read);
    for i := 0 to |changes|
      invariant Built(changes[..i], read, paths, byPath)
    {
      var change := changes[i];
      assert changes[..i + 1] == changes[..i] + [change];
      EntryIsReplay(changes[..i], read, paths, byPath, change);
      var file;
      if change.path in byPath {
        file := byPath[change.path];
      } else {
        var doc := read(change.path);
        if doc.None? {
          NoPlan(changes, i, read);
          return None;
        }
        file := PlannedFile(change.path, doc.value, doc.value);
      }
      assert Entry(byPath, read, change.path) == Some(file);
      var updated := ApplyChangeToContent(change, file.finalContent);
      if updated.None? {
        NoPlan(changes, i, read);
        return None;
      }
      file := file.(finalContent := updated.value);
      BuiltStep(changes[..i], read, paths, byPath, change, file);
      paths := Insert(paths, change.path);
      byPath := byPath[change.path := file];
    }
    assert changes[..|changes|] == changes;
    BuiltIsPlan(changes, read, paths, byPath);
    var out := [];
    for i := 0 to |paths|
      invariant out == PlanFiles(changes, read)[..i]
    {
      out := out + [byPath[paths[i]]];
    }
    assert out == PlanFiles(changes, read);
    return Some(out);
  }

  // ----- Whole-file changes --------------------------------------------------------------

  /** Behind a change of the whole file a replay no longer depends on where it started. */
  lemma {:induction false} WholeFileForgets(changes: seq<StagedChange>, x: string, y: string)
    requires exists i :: 0 <= i < |changes| && OperationOf(changes[i].operation) == ReplaceContent
    requires Replay(changes, x).Some? && Replay(changes, y).Some?
    ensures Replay(changes, x) == Replay(changes, y)
  {
    hide OperationOf, Target;
    var front, last := changes[..|changes| - 1], changes[|changes| - 1];
    if OperationOf(last.operation) != ReplaceContent {
      var i :| 0 <= i < |changes| && OperationOf(changes[i].operation) == ReplaceContent;
      assert front[i] == changes[i];
      WholeFileForgets(front, x, y);
    }
  }
}

/** A whole-file edit from the content it was made on to the committed file (session_service.cpp:
    session_materialize_file; structure_adapters.cpp: stage_whole_file_change). */
module StagedEdits {
  import opened Text
  import opened ChangeRecord
  import opened ChangeRoundTrip
  import opened Edits
  import opened Plan
  import opened Recovery
  import opened Encoding
  import opened PatchStore
  import opened Undo
  import opened Commit
  import opened Sessions
  import opened SessionRuns
  import opened StagingOrder
  import opened Spared

  /** The content of a path as a session has it: as planned, or as it is on the disk if nothing of it is
      staged; None when the session has no plan or the path is outside the workspace. */
  ghost function Materialized(cfg: Config, files: map<string, File>, s: Sess, path: string): Option<string>
  {
    var read := Contents(ProbeOf(cfg, files));
    if PlanOf(LoadAll(s.entries), read).None? || read(path).None? then None
    else Replay(Mine(s, path), read(path).value)
  }

  /** It is what the plan holds for the path, if the plan has it. */
  lemma MaterializedIsPlanned(cfg: Config, files: map<string, File>, s: Sess, path: string)
    requires PlanOf(LoadAll(s.entries), Contents(ProbeOf(cfg, files))).Some?
    ensures var plan := PlanOf(LoadAll(s.entries), Contents(ProbeOf(cfg, files))).value;
            (forall i :: 0 <= i < |plan| && plan[i].path == path ==>
              Materialized(cfg, files, s, path) == Some(plan[i].finalContent)) &&
            ((forall i :: 0 <= i < |plan| ==> plan[i].path != path) ==>
              Materialized(cfg, files, s, path) == Contents(ProbeOf(cfg, files))(path))
  {
    hide LoadAll, ChangesFor, PlanOf, ProbeOf;
    PlanIsPerFile(LoadAll(s.entries), Contents(ProbeOf(cfg, files)));
  }

  /** The last staged change of the path rewrites the file with this text. */
  ghost predicate LastRewrites(s: Sess, path: string, text: string)
  {
    var mine := Mine(s, path);
    mine != [] && OperationOf(mine[|mine| - 1].operation) == ReplaceContent && mine[|mine| - 1].newContent == text
  }

  lemma LastReplay(changes: seq<StagedChange>, content: string)
    requires changes != [] && OperationOf(changes[|changes| - 1].operation) == ReplaceContent
    requires Replay(changes, content).Some?
    ensures Replay(changes, content) == Some(changes[|changes| - 1].newContent)
  {
    hide OperationOf;
  }

  /** A commit that goes through writes that text, in the layout of the file it finds, even if the session
      has changed since, as long as it stages the same edits of the path. */
  lemma RewriteCommitted(cfg: Config, s: Sess, w: World, path: string, text: string)
    requires LastRewrites(s, path, text) && SameEdits(s, w.sess, path)
    requires Sound(w.disk) && DoCommit(cfg, w.disk, w.sess).2.Some?
    ensures '\0' !in text && ReadState(cfg, w.disk.files, path).Some?
    ensures BytesAt(DoCommit(cfg, w.disk, w.sess).0.files, path) ==
            Some(Encode(text, ReadState(cfg, w.disk.files, path).value.format))
  {
    hide DoCommit, Sound, LoadAll, Replay, ChangesFor, BytesAt, ReadState, Encode, OperationOf;
    var content := BytesAt(w.disk.files, path).GetOr("");
    CommitWritesPlan(cfg, w.disk, w.sess, path);
    CommittedFits(cfg, w.disk, w.sess, path);
    assert Replay(Mine(s, path), content) == Replay(Mine(w.sess, path), content);
    LastReplay(Mine(s, path), content);
  }

  // ----- From the edit call on -----------------------------------------------------------

  lemma LastAdded(id: string, s: Sess, adds: seq<Addition>)
    requires Active(s) && s.entries == [] && 0 < |adds| <= 9999 && SizesFit(adds[|adds| - 1].input)
    ensures var a, c := adds[|adds| - 1].input, LoadAll(AddAll(id, s, adds).entries);
            |c| == |adds| && c[|c| - 1].path == a.path && c[|c| - 1].operation == a.operation && c[|c| - 1].newContent == a.newContent
  {
    hide AddAll, LoadAll, Reload, SizesFit, Active, InOrder, Filled;
    StagedInOrder(id, s, adds);
    var a := adds[|adds| - 1];
    FilledKeeps(id, a);
    ReloadKeepsEdit(Filled(id, a));
  }

  lemma FilledKeeps(session: string, a: Addition)
    ensures var c := Filled(session, a);
            c.path == a.input.path && c.operation == a.input.operation && c.newContent == a.input.newContent &&
            (SizesFit(a.input) ==> SizesFit(c))
  {
  }

  lemma LastMine(changes: seq<StagedChange>)
    requires changes != []
    ensures var c := changes[|changes| - 1];
            var mine := ChangesFor(changes, c.path); mine != [] && mine[|mine| - 1] == c
  {
  }

  lemma AddedRewrites(id: string, s: Sess, adds: seq<Addition>)
    requires Active(s) && s.entries == [] && 0 < |adds| <= 9999 && SizesFit(adds[|adds| - 1].input)
    requires adds[|adds| - 1].input.operation == "replace_content"
    ensures LastRewrites(AddAll(id, s, adds), adds[|adds| - 1].input.path, adds[|adds| - 1].input.newContent)
  {
    hide AddAll, LoadAll, SizesFit, Active, ChangesFor, OperationOf, DeserializedChange, PutEntry, FilledIn;
    LastAdded(id, s, adds);
    LastMine(LoadAll(AddAll(id, s, adds).entries));
    RewriteIsWhole();
  }

  lemma RewriteIsWhole()
    ensures OperationOf("replace_content") == ReplaceContent
  {
  }

  /** A session whose last added change rewrites a file, any calls that leave the file alone, and a commit
      that goes through: the file is the text, in the layout it had when the change was added. */
  lemma StagedIsCommitted(cfg: Config, id: string, d: Disk, s: Sess, adds: seq<Addition>, calls: seq<Call>)
    requires Sound(d) && Active(s) && s.entries == [] && 0 < |adds| <= 9999 && SizesFit(adds[|adds| - 1].input)
    requires adds[|adds| - 1].input.operation == "replace_content"
    requires SparesAll(cfg, id, World(d, AddAll(id, s, adds)), calls, adds[|adds| - 1].input.path)
    requires var w := Run(cfg, id, World(d, AddAll(id, s, adds)), calls); DoCommit(cfg, w.disk, w.sess).2.Some?
    ensures var a, w := adds[|adds| - 1].input, Run(cfg, id, World(d, AddAll(id, s, adds)), calls);
            '\0' !in a.newContent && ReadState(cfg, d.files, a.path).Some? &&
            BytesAt(DoCommit(cfg, w.disk, w.sess).0.files, a.path) ==
            Some(Encode(a.newContent, ReadState(cfg, d.files, a.path).value.format))
  {
    hide AddAll, DoCommit, Sound, SizesFit, Active, Mine, Replay, BytesAt, ReadState, Encode, Run, SparesAll, OperationOf;
    var a, start := adds[|adds| - 1].input, World(d, AddAll(id, s, adds));
    var w := Run(cfg, id, start, calls);
    AddedRewrites(id, s, adds);
    SparedRun(cfg, id, start, calls, a.path);
    RewriteCommitted(cfg, start.sess, w, a.path, a.newContent);
    SameBytesRead(cfg, d.files, w.disk.files, a.path);
  }
}

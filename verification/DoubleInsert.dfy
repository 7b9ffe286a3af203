/** An insertion that lands twice: two staged files, a commit that stops at the second, a drop, a rebase
    and a commit that goes through (session_service.cpp). */
module DoubleInsert {
  import opened Text
  import opened TextLines
  import opened ChangeRecord
  import opened Selectors
  import opened Edits
  import opened Names
  import opened Plan
  import opened Recovery
  import opened Encoding
  import opened PatchStore
  import opened Undo
  import opened Commit
  import opened Sessions
  import opened SessionRuns
  import opened Spared
  import opened Retry
  import opened Twice

  /** "b" inserted behind the "a" of the file a, as an edit call stages it. */
  function Insertion(cfg: Config): StagedChange
  {
    StagedChange("c1", "s", "insert_after", "a", 0, 0, Selector("a", "", "", "", "", "", 1, false),
                 "a", cfg.tickText(0), cfg.hash("a"), "b", "", "", DEFAULT_RISK, "")
  }

  /** A new file b. */
  function NewFile(cfg: Config): StagedChange
  {
    StagedChange("c2", "s", "replace_content", "b", 0, 0, Selector("", "", "", "", "", "", 1, false),
                 "", "missing", cfg.hash(""), "b", "", "", DEFAULT_RISK, "")
  }

  function Staged(cfg: Config): Sess
  {
    Sess(true, Staging, [Entry(FileName(1, "c1"), SerializedChange(Insertion(cfg))),
                         Entry(FileName(2, "c2"), SerializedChange(NewFile(cfg)))], [])
  }

  const WORKSPACE := Disk(map["a" := File("a", 0)], [], [], [], 0)

  /** The policy allows a and denies b, and previews do not expire. */
  predicate DeniesB(cfg: Config) { cfg.verdict("a") == Allowed && cfg.verdict("b") == Denied && cfg.ttl == 0 }

  // ----- The edits -----------------------------------------------------------------------

  lemma FirstTarget(content: string, sel: Selector)
    requires content in {"a", "ab"}
    requires sel.query == "a" && sel.occurrence == 1 && !sel.fromEnd && sel.anchorBefore == "" && sel.anchorAfter == ""
    ensures Edits.Target(content, sel) == Some(Range(0, 1, 1))
  {
    hide At;
    AtSlice(content, 0, "a");
    assert content[0..1] == "a";
    FindFirst(content, "a", 0, 0);
    NotBehind(content);
    assert Locate(content, sel, 1, [Range(0, 1, 1)]) == [Range(0, 1, 1)];
  }

  lemma NotBehind(content: string)
    requires content in {"a", "ab"}
    ensures Find(content, "a", 1) == None
  {
    AtSlice(content, 1, "a");
    assert content == "ab" ==> content[1..2] == "b";
  }

  /** A change as it is read back, whatever became of its risk hint. */
  predicate ReadAs(c: StagedChange, staged: StagedChange) { c.(risk := staged.risk) == staged }

  lemma Inserted(cfg: Config, c: StagedChange)
    requires ReadAs(c, Insertion(cfg))
    ensures Replay([c], "a") == Some("ab") && Replay([c], "ab") == Some("abb") && Try([c], "ab").ok
  {
    hide Resolve;
    FirstTarget("a", c.selector);
    FirstTarget("ab", c.selector);
    assert "a"[..1] + "b" + "a"[1..] == "ab" && "ab"[..1] + "b" + "ab"[1..] == "abb" && "ab"[0..1] == "a";
    assert [c][..0] == [];
  }

  lemma Created(cfg: Config, c: StagedChange)
    requires ReadAs(c, NewFile(cfg))
    ensures Replay([c], "") == Some("b")
  {
    assert [c][..0] == [];
  }

  // ----- The session ---------------------------------------------------------------------

  lemma StagedChanges(cfg: Config) returns (c: StagedChange, z: StagedChange)
    ensures LoadAll(Staged(cfg).entries) == [c, z] && ReadAs(c, Insertion(cfg)) && ReadAs(z, NewFile(cfg))
    ensures Mine(Staged(cfg), "a") == [c] && Mine(Staged(cfg), "b") == [z]
    ensures PathsOf(LoadAll(Staged(cfg).entries)) == ["a", "b"]
  {
    hide SerializedChange, DeserializedChange, FileName;
    ReloadKeepsEdit(Insertion(cfg));
    ReloadKeepsEdit(NewFile(cfg));
    c, z := Reload(Insertion(cfg)), Reload(NewFile(cfg));
    TwoPaths(c, z);
  }

  lemma TwoPaths(c: StagedChange, z: StagedChange)
    requires c.path == "a" && z.path == "b"
    ensures ChangesFor([c, z], "a") == [c] && ChangesFor([c, z], "b") == [z] && PathsOf([c, z]) == ["a", "b"]
    ensures WithoutPath([c, z], "b") == [c] && PathsOf([c]) == ["a"] && ChangesFor([c], "a") == [c]
  {
    assert [c] + [z] == [c, z] && [] + [c] == [c];
    LastChangeOf([], c, "a");
    LastChangeOf([], c, "b");
    LastChangeOf([c], z, "a");
    LastChangeOf([c], z, "b");
    TwoNames();
    hide Insert, ChangesFor, PathsOf;
    assert [c][..0] == [] && [c, z][..1] == [c];
    assert WithoutPath([c], "b") == [c];
  }

  lemma TwoNames()
    ensures Insert([], "a") == ["a"] && Insert(["a"], "b") == ["a", "b"]
  {
    assert Less("a", "b") by { assert "a"[0] == 'a' && "b"[0] == 'b'; }
    hide Less;
    assert ["a"][1..] == [];
    assert Position(["a"], "b") == 1;
    assert ["a"][..1] == ["a"];
  }

  lemma NotDrifted(cfg: Config, c: StagedChange, z: StagedChange)
    requires ReadAs(c, Insertion(cfg)) && ReadAs(z, NewFile(cfg)) && DeniesB(cfg)
    ensures var probe := ProbeOf(cfg, WORKSPACE.files);
            probe("a").Some? && probe("b").Some? && probe("a").value.content == "a" && probe("b").value.content == "" &&
            StatusOf([c], probe("a").value) == Clean && StatusOf([z], probe("b").value) == Clean
  {
    hide Try;
  }

  /** The session is ready, with a plan of both files. */
  lemma StagedIsReady(cfg: Config)
    requires DeniesB(cfg)
    ensures Ready(cfg, WORKSPACE, Staged(cfg)) ==
            Some([PlannedFile("a", "a", "ab"), PlannedFile("b", "", "b")])
  {
    hide LoadAll, ChangesFor, PathsOf, Replay, StatusOf, Check, ProbeOf, Staged, PlannedFor;
    var c, z := StagedChanges(cfg);
    var changes, probe := LoadAll(Staged(cfg).entries), ProbeOf(cfg, WORKSPACE.files);
    NotDrifted(cfg, c, z);
    Inserted(cfg, c);
    Created(cfg, z);
    CleanCheck(changes, probe);
    PlanOfTwo(cfg, c, z);
    StagedActive(cfg);
  }

  lemma StagedActive(cfg: Config)
    ensures Active(Staged(cfg))
  {
  }

  lemma PlanOfTwo(cfg: Config, c: StagedChange, z: StagedChange)
    requires DeniesB(cfg)
    requires Replay([c], "a") == Some("ab") && Replay([z], "") == Some("b")
    requires c.path == "a" && z.path == "b"
    ensures PlanOf([c, z], Contents(ProbeOf(cfg, WORKSPACE.files))) ==
            Some([PlannedFile("a", "a", "ab"), PlannedFile("b", "", "b")])
  {
    hide ChangesFor, PathsOf, Replay;
    TwoPaths(c, z);
    var read := Contents(ProbeOf(cfg, WORKSPACE.files));
    assert PlannedFor([c, z], read, "a") == PlannedFile("a", "a", "ab");
    assert PlannedFor([c, z], read, "b") == PlannedFile("b", "", "b");
    assert AllReplay([c, z], read);
    assert PlanFiles([c, z], read) == [PlannedFile("a", "a", "ab"), PlannedFile("b", "", "b")];
  }

  // ----- The commit that stops -----------------------------------------------------------

  lemma PlainText(text: string)
    requires text in {"a", "ab", "abb"}
    ensures Decode(text) == Some(Decoded(text, PLAIN)) && Encode(text, PLAIN) == text && '\0' !in text
  {
    hide StripCR, At;
    assert '\r' !in text && '\0' !in text;
    StripCROfClean(text);
    NoPairs(text);
    PlainStart(text);
    assert text[0..] == text;
  }

  lemma PlainStart(text: string)
    requires text != [] && text[0] == 'a'
    ensures FileMark(text) == ""
  {
    assert UTF8_MARK[0] == '\U{EF}' && UTF16_MARK[0] == '\U{FF}';
  }

  lemma ReadsPlain(cfg: Config, files: map<string, File>, text: string)
    requires text in {"a", "ab", "abb"} && BytesAt(files, "a") == Some(text)
    ensures ReadState(cfg, files, "a").Some? && ReadState(cfg, files, "a").value.format == PLAIN
  {
    hide Decode;
    PlainText(text);
  }

  /** The first commit writes a and stops at b. */
  lemma StopsAtB(cfg: Config)
    requires DeniesB(cfg)
    ensures Stopped(cfg, WORKSPACE, Staged(cfg)) && DoneBy(cfg, WORKSPACE, Staged(cfg)) == 1
    ensures Reached(cfg, WORKSPACE, Staged(cfg), "a")
    ensures BytesAt(Left(cfg, WORKSPACE, Staged(cfg)).disk.files, "a") == Some("ab")
  {
    hide LoadAll, ChangesFor, PathsOf, Replay, Ready, Staged, DoCommit, CommitAll, Encode, ReadState, SameEdits;
    var s := Staged(cfg);
    var c, z := StagedChanges(cfg);
    StagedIsReady(cfg);
    if DoCommit(cfg, WORKSPACE, s).2.Some? {
      CommittedFits(cfg, WORKSPACE, s, "b");
    }
    StopsAt(cfg, WORKSPACE, s);
    PlainText("a");
    PlainText("ab");
    ReadsPlain(cfg, WORKSPACE.files, "a");
    var files := Ready(cfg, WORKSPACE, s).value;
    assert Committable(cfg, WORKSPACE, files, 0);
    assert files[0].path == "a";
    StoppedPath(cfg, WORKSPACE, s, "a");
    Inserted(cfg, c);
  }

  // ----- The commit that goes through ----------------------------------------------------

  /** With b dropped, the rebase lets the insertion through. */
  lemma RebaseAllowed(cfg: Config, d: Disk, s: Sess, c: StagedChange)
    requires DeniesB(cfg) && Active(s) && LoadAll(s.entries) == [c] && ReadAs(c, Insertion(cfg))
    requires BytesAt(d.files, "a") == Some("ab")
    ensures DoRebase(cfg, d, s).1
  {
    hide LoadAll, ChangesFor, Replay, Try, DoRebase, Active, StatusOf, ProbeOf, BytesAt;
    Inserted(cfg, c);
    SeenAs(cfg, d.files, c);
    OneFile(c);
    RebaseGranted(cfg, d, s);
  }

  lemma OneFile(c: StagedChange)
    ensures forall p :: ChangesFor([c], p) == if p == c.path then [c] else []
  {
    assert [c][..0] == [];
  }

  lemma SeenAs(cfg: Config, files: map<string, File>, c: StagedChange)
    requires DeniesB(cfg) && BytesAt(files, "a") == Some("ab") && Try([c], "ab").ok
    ensures ProbeOf(cfg, files)("a").Some? && StatusOf([c], ProbeOf(cfg, files)("a").value) != Conflict
  {
    hide Try;
  }

  /** What is left once b is dropped. */
  lemma DroppedLeaves(cfg: Config) returns (c: StagedChange)
    requires DeniesB(cfg)
    ensures var left := Left(cfg, WORKSPACE, Staged(cfg));
            ReadAs(c, Insertion(cfg)) && Active(DoDropPath(left.sess, "b").0) &&
            LoadAll(DoDropPath(left.sess, "b").0.entries) == [c] && Mine(Staged(cfg), "a") == [c]
  {
    hide LoadAll, ChangesFor, Ready, Staged, DoDropPath, Left, Stopped, Active, WithoutPath, BytesAt, Sound, DoneBy, Reached;
    var z;
    c, z := StagedChanges(cfg);
    StopsAtB(cfg);
    SessionLeft(cfg, WORKSPACE, Staged(cfg));
    LeftEntries(cfg, WORKSPACE, Staged(cfg));
    DropTaken(Left(cfg, WORKSPACE, Staged(cfg)).sess, "b");
    TwoPaths(c, z);
  }

  lemma GoesThrough(cfg: Config)
    requires DeniesB(cfg)
    ensures Again(cfg, "s", WORKSPACE, Staged(cfg), DropAndRebase("b")).2.Some?
  {
    hide LoadAll, Mine, Replay, Ready, Staged, DoDropPath, DoRebase, Left, Stopped, DropAndRebase, Again, Active, BytesAt, DoneBy, Reached,
      ReadAs, Insertion, Recommits, InTimeFor, DeniesB;
    var s, left := Staged(cfg), Left(cfg, WORKSPACE, Staged(cfg));
    StagedIsReady(cfg);
    StopsAtB(cfg);
    var c := DroppedLeaves(cfg);
    RebaseAllowed(cfg, left.disk, DoDropPath(left.sess, "b").0, c);
    FirstAgain(cfg, c);
    NoneExpires(cfg, left.disk.clock, 1);
    DropAndRetry(cfg, "s", WORKSPACE, s);
  }

  lemma FirstAgain(cfg: Config, c: StagedChange)
    requires DeniesB(cfg) && ReadAs(c, Insertion(cfg)) && Mine(Staged(cfg), "a") == [c]
    ensures Ready(cfg, WORKSPACE, Staged(cfg)).Some? && |Ready(cfg, WORKSPACE, Staged(cfg)).value| == 2
    ensures Recommits(cfg, WORKSPACE, Staged(cfg), 0)
  {
    hide Mine, Replay, Ready, Staged, Left, Stopped, BytesAt, DoneBy, Reached, ReadAs, Insertion, DeniesB, ReadState;
    StagedIsReady(cfg);
    StopsAtB(cfg);
    Inserted(cfg, c);
    PlainText("abb");
  }

  lemma NoneExpires(cfg: Config, clock: nat, n: nat)
    requires DeniesB(cfg)
    ensures InTimeFor(cfg, clock, n)
  {
    hide ClockAt, TickAt;
  }

  /** The file that held "a", with "b" staged once behind the "a", ends as "abb". */
  lemma InsertLandsTwice(cfg: Config)
    requires DeniesB(cfg)
    ensures var r := Again(cfg, "s", WORKSPACE, Staged(cfg), DropAndRebase("b"));
            r.2.Some? && BytesAt(r.0.files, "a") == Some("abb")
  {
    hide LoadAll, Mine, Replay, Ready, Staged, DoCommit, Encode, Decode, ReadState, Left, Stopped, DropAndRebase, Again, Reached,
      SparesAll, BytesAt, DoneBy;
    var s, left := Staged(cfg), Left(cfg, WORKSPACE, Staged(cfg));
    var c, z := StagedChanges(cfg);
    StopsAtB(cfg);
    GoesThrough(cfg);
    Inserted(cfg, c);
    PlainText("abb");
    TwoCalls(cfg, "s", left, "b");
    ReadsPlain(cfg, left.disk.files, "ab");
    RetryWrites(cfg, "s", WORKSPACE, s, DropAndRebase("b"), "a");
  }

  lemma LeftEntries(cfg: Config, d: Disk, s: Sess)
    ensures Left(cfg, d, s).sess.entries == s.entries
  {
    CommitEntries(cfg, d, s);
  }

  // ----- Several changes -----------------------------------------------------------------

  lemma SecondTarget(sel: Selector)
    requires sel.query == "b" && sel.occurrence == 1 && !sel.fromEnd && sel.anchorBefore == "" && sel.anchorAfter == ""
    ensures Edits.Target("ab", sel) == Some(Range(1, 2, 1))
  {
    hide At;
    AtSlice("ab", 0, "b");
    AtSlice("ab", 1, "b");
    assert "ab"[0..1] == "a" && "ab"[1..2] == "b";
    assert Find("ab", "b", 2) == None;
    assert Locate("ab", sel, 2, [Range(1, 2, 1)]) == [Range(1, 2, 1)];
  }

  lemma InsertB(c: StagedChange)
    requires c.operation == "insert_after" && c.newContent == "b" && c.selector.query == "a"
    requires c.selector.occurrence == 1 && !c.selector.fromEnd && c.selector.anchorBefore == "" && c.selector.anchorAfter == ""
    ensures Apply(c, "a") == Some("ab") && !SettlesInFile(c, "a")
  {
    hide Resolve, StripCR;
    FirstTarget("a", c.selector);
    StripCROfClean("b");
    assert "a"[..1] + "b" + "a"[1..] == "ab";
  }

  lemma DeleteB(z: StagedChange)
    requires z.operation == "delete_block" && z.selector.query == "b"
    requires z.selector.occurrence == 1 && !z.selector.fromEnd && z.selector.anchorBefore == "" && z.selector.anchorAfter == ""
    ensures Apply(z, "ab") == Some("a") && !SettlesInFile(z, "a")
  {
    hide Resolve, StripCR;
    SecondTarget(z.selector);
    StripCROfClean("b");
    assert "ab"[..1] + "ab"[2..] == "a";
  }

  /** Changes that do not settle one by one may do so together: "b" inserted behind "a", and deleted. */
  lemma InsertedAndDeleted(c: StagedChange, z: StagedChange)
    requires c.operation == "insert_after" && c.newContent == "b" && c.selector.query == "a"
    requires z.operation == "delete_block" && z.selector == c.selector.(query := "b")
    requires c.selector.occurrence == 1 && !c.selector.fromEnd && c.selector.anchorBefore == "" && c.selector.anchorAfter == ""
    ensures Replay([c, z], "a") == Some("a") && !SettlesInFile(c, "a") && !SettlesInFile(z, "a")
  {
    hide Apply, SettlesInFile, Replay;
    InsertB(c);
    DeleteB(z);
    assert [c, z] == [c] + [z] && [] + [c] == [c];
    ReplayNothing("a");
    ReplaySnoc([], c, "a");
    ReplaySnoc([c], z, "a");
  }
}

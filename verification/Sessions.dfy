/** A controlled editing session: staged changes, and the steps that stage, preview, commit, abort,
    drop and rebase them (session_service.cpp). */
module Sessions {
  import opened Text
  import opened ChangeRecord
  import opened Names
  import opened Plan
  import opened Recovery
  import opened TextLines
  import opened Diff
  import opened PatchStore
  import opened Commit

  datatype Stage = Created | Staging | InPreview | Validating | Writing | Verifying | Done | Aborted

  /** A change file: its name and its text. */
  datatype Entry = Entry(name: string, text: string)

  /** A session's directory: whether it exists, its state, its change files sorted by name, and the
      files of its commit record. */
  datatype Sess = Sess(begun: bool, stage: Stage, entries: seq<Entry>, record: seq<CommitFile>)

  // ----- Change files --------------------------------------------------------------------

  function LoadAll(entries: seq<Entry>): (changes: seq<StagedChange>)
    ensures |changes| == |entries|
    ensures forall i :: 0 <= i < |entries| ==> changes[i] == DeserializedChange(entries[i].text)
  {
    seq(|entries|, i requires 0 <= i < |entries| => DeserializedChange(entries[i].text))
  }

  function NamesOf(entries: seq<Entry>): (names: seq<string>)
    ensures |names| == |entries|
    ensures forall i :: 0 <= i < |entries| ==> names[i] == entries[i].name
  {
    seq(|entries|, i requires 0 <= i < |entries| => entries[i].name)
  }

  /** A number with at least four digits. */
  function Padded(n: nat): string
  {
    var s := Decimal(n);
    if |s| >= 4 then s else seq(4 - |s|, _ => '0') + s
  }

  function FileName(ordinal: nat, id: string): string
  {
    Padded(ordinal) + "-" + id + ".json"
  }

  /** The change files once one of them is written: a file of the same name is overwritten. */
  function PutEntry(entries: seq<Entry>, e: Entry): seq<Entry>
  {
    var k := Position(NamesOf(entries), e.name);
    if Names.Holds(NamesOf(entries), e.name) then entries[k := e] else entries[..k] + [e] + entries[k..]
  }

  // ----- Staging -------------------------------------------------------------------------

  /** join_non_empty */
  function JoinNonEmpty(a: string, b: string): string
  {
    if a == "" then b else if b == "" then a else a + " | " + b
  }

  /** summarize_selector */
  function SelectorSummary(c: StagedChange): string
  {
    if c.operation == "replace_range" then
      "line-range " + Decimal(c.lineStart) + "-" + Decimal(c.lineEnd)
    else
      c.operation + " occurrence=" + Decimal(c.selector.occurrence) +
      (if c.selector.fromEnd then " from_end=true" else "") +
      (if c.selector.query != "" then " query=" + c.selector.query else "")
  }

  /** The change session_add stores: the fields the caller left empty are filled in. */
  function FilledIn(input: StagedChange, session: string, freshId: string, now: string): StagedChange
  {
    var c := input.(sessionId := session);
    var c := if c.changeId == "" then c.(changeId := freshId) else c;
    var c := if c.createdAt == "" then c.(createdAt := now) else c;
    var c := if c.selectorReason == "" then c.(selectorReason := SelectorSummary(c)) else c;
    if c.anchor == "" then c.(anchor := JoinNonEmpty(c.selector.anchorBefore, c.selector.anchorAfter)) else c
  }

  /** What filling in does: the session is set; an id, a time, a reason and an anchor that are given are kept; and
      nothing else of the change is touched. */
  lemma FilledFields(input: StagedChange, session: string, freshId: string, now: string)
    ensures var c := FilledIn(input, session, freshId, now);
            c.sessionId == session &&
            c.changeId == (if input.changeId == "" then freshId else input.changeId) &&
            c.createdAt == (if input.createdAt == "" then now else input.createdAt) &&
            (input.selectorReason != "" ==> c.selectorReason == input.selectorReason) &&
            (input.anchor != "" ==> c.anchor == input.anchor) &&
            c.(sessionId := input.sessionId, changeId := input.changeId, createdAt := input.createdAt,
               selectorReason := input.selectorReason, anchor := input.anchor) == input
    ensures var c, before, after := FilledIn(input, session, freshId, now), input.selector.anchorBefore, input.selector.anchorAfter;
            input.anchor == "" ==>
              (before == "" ==> c.anchor == after) && (after == "" ==> c.anchor == before) &&
              (before != "" && after != "" ==> c.anchor == before + " | " + after)
  {
  }

  /** ensure_active_session */
  predicate Active(s: Sess) { s.begun && s.stage != Done && s.stage != Aborted }

  function DoBegin(id: string, s: Sess): (Sess, bool)
  {
    if id == "" then (s, false)
    else (if s.begun then s else s.(begun := true, stage := Created), true)
  }

  function DoAdd(id: string, s: Sess, input: StagedChange, freshId: string, now: string): (Sess, bool)
  {
    if !Active(s) then (s, false)
    else
      var c := FilledIn(input, id, freshId, now);
      var e := Entry(FileName(|s.entries| + 1, c.changeId), SerializedChange(c));
      (s.(entries := PutEntry(s.entries, e), stage := Staging), true)
  }

  // ----- The disk as a session sees it ---------------------------------------------------

  /** fingerprint_file: the bytes of a file, its mark included; a denied path is still read. */
  function ProbeOf(cfg: Config, files: map<string, File>): Probe
  {
    (path: string) =>
      if cfg.verdict(path) == Outside then None
      else if path !in files then Some(Fingerprint("", cfg.hash(""), "missing"))
      else Some(Fingerprint(files[path].bytes, cfg.hash(files[path].bytes), cfg.tickText(files[path].ticks)))
  }

  /** The plan a preview or a commit works from: the session is active, its check finds every file
      clean, and its changes replay. */
  ghost function Ready(cfg: Config, d: Disk, s: Sess): Option<seq<PlannedFile>>
  {
    var probe := ProbeOf(cfg, d.files);
    var check := Check(LoadAll(s.entries), probe);
    if !Active(s) || check.None? || check.value.conflicts > 0 || check.value.rebases > 0 then None
    else PlanOf(LoadAll(s.entries), Contents(probe))
  }

  // ----- Previewing and committing -------------------------------------------------------

  datatype FilePreview = FilePreview(path: string, id: nat, applicable: bool, diff: string, stats: DiffStats)

  datatype PreviewRun = PreviewRun(disk: Disk, done: seq<FilePreview>, failed: bool)

  function PreviewFirst(cfg: Config, d: Disk, files: seq<PlannedFile>, n: nat): PreviewRun
    requires n <= |files|
  {
    if n == 0 then PreviewRun(d, [], false)
    else
      var r := PreviewFirst(cfg, d, files, n - 1);
      if r.failed then r
      else
        var (e, p) := DoPreview(cfg, r.disk, files[n - 1].path, files[n - 1].finalContent, NO_BASE);
        if p.PreviewFailed? then PreviewRun(e, r.done, true)
        else
          var stats := Analyzed(GetLines(p.diff));
          PreviewRun(e, r.done + [FilePreview(files[n - 1].path, p.id, p.applicable, p.diff, stats)], false)
  }

  ghost function DoPreviewAll(cfg: Config, d: Disk, s: Sess): (Disk, Sess, Option<seq<FilePreview>>)
  {
    match Ready(cfg, d, s)
    case None => (d, s, None)
    case Some(files) =>
      var r := PreviewFirst(cfg, d, files, |files|);
      if r.failed then (r.disk, s, None)
      else (r.disk, if files == [] then s else s.(stage := InPreview), Some(r.done))
  }

  ghost function DoCommit(cfg: Config, d: Disk, s: Sess): (Disk, Sess, Option<seq<CommitFile>>)
  {
    match Ready(cfg, d, s)
    case None => (d, s, None)
    case Some(files) =>
      var r := CommitAll(cfg, d, files);
      if r.failed then (r.disk, s.(stage := Writing), None)
      else (r.disk, s.(stage := Done, record := r.done), Some(r.done))
  }

  /** session_abort asks only that the session exists. */
  function DoAbort(s: Sess): (Sess, bool)
  {
    if s.begun then (s.(stage := Aborted), true) else (s, false)
  }

  // ----- Dropping ------------------------------------------------------------------------

  predicate NamedBy(e: Entry, id: string)
  {
    DeserializedChange(e.text).changeId == id || Find(e.name, id, 0).Some?
  }

  predicate OnPath(e: Entry, path: string)
  {
    DeserializedChange(e.text).path == path
  }

  function WithoutId(entries: seq<Entry>, id: string): (rest: seq<Entry>)
    ensures |rest| <= |entries|
  {
    if entries == [] then []
    else
      var front, last := WithoutId(entries[..|entries| - 1], id), entries[|entries| - 1];
      if NamedBy(last, id) then front else front + [last]
  }

  function WithoutFile(entries: seq<Entry>, path: string): (rest: seq<Entry>)
    ensures |rest| <= |entries|
  {
    if entries == [] then []
    else
      var front, last := WithoutFile(entries[..|entries| - 1], path), entries[|entries| - 1];
      if OnPath(last, path) then front else front + [last]
  }

  function Dropped(s: Sess, rest: seq<Entry>): Sess
  {
    s.(entries := rest, stage := if rest == [] then Created else Staging)
  }

  function DoDropChange(s: Sess, id: string): (Sess, bool)
  {
    if id == "" || !Active(s) then (s, false)
    else
      var rest := WithoutId(s.entries, id);
      if |rest| == |s.entries| then (s, false) else (Dropped(s, rest), true)
  }

  function DoDropPath(s: Sess, path: string): (Sess, bool)
  {
    if !Active(s) then (s, false)
    else
      var rest := WithoutFile(s.entries, path);
      if |rest| == |s.entries| then (s, false) else (Dropped(s, rest), true)
  }

  // ----- Rebasing ------------------------------------------------------------------------

  /** The change files once those of the files in `need` are written on their new base. */
  function RestageEntries(entries: seq<Entry>, need: set<string>, probe: Probe): (out: seq<Entry>)
    requires forall p :: p in need ==> probe(p).Some?
    ensures |out| == |entries|
  {
    if entries == [] then []
    else
      var last := entries[|entries| - 1];
      var c := DeserializedChange(last.text);
      RestageEntries(entries[..|entries| - 1], need, probe) +
      [if c.path in need then last.(text := SerializedChange(Restaged(c, probe(c.path).value))) else last]
  }

  ghost function DoRebase(cfg: Config, d: Disk, s: Sess): (Sess, bool)
  {
    var changes, probe := LoadAll(s.entries), ProbeOf(cfg, d.files);
    var check := Check(changes, probe);
    if !Active(s) || check.None? || check.value.conflicts > 0 then (s, false)
    else
      var need := DuePaths(changes, probe);
      (s.(entries := RestageEntries(s.entries, need, probe), stage := if need == {} then s.stage else Staging), true)
  }
}

/** What a preview shows: the diff of one file (patch_service.cpp: patch_preview), and the answer of a
    session preview over all its files (session_service.cpp: session_preview). */
module Previews {
  import opened Text
  import opened TextLines
  import opened ChangeRecord
  import opened Names
  import opened Plan
  import opened Recovery
  import opened Encoding
  import opened Diff
  import opened PatchStore
  import opened Undo
  import opened Commit
  import opened Sessions
  import opened SessionRuns

  // ----- One file ------------------------------------------------------------------------

  /** A diff that names the path and says "no changes" of equal texts; of others it holds one hunk, which turns
      the lines of the one into the lines of the other, behind a header with where it starts and how many
      lines it has of each. */
  ghost predicate Shows(path: string, was: string, now: string, diff: string)
  {
    if was == now then diff == Flat(["--- a/" + path, "+++ b/" + path, "@@ no changes @@"])
    else exists h: Hunk :: ShowsHunk(path, was, now, diff, h)
  }

  ghost predicate ShowsHunk(path: string, was: string, now: string, diff: string, h: Hunk)
  {
    diff == Flat(["--- a/" + path, "+++ b/" + path,
                  "@@ -" + Decimal(h.start + 1) + "," + Decimal(CountStart(h.body, " ") + CountStart(h.body, "-")) +
                  " +" + Decimal(h.start + 1) + "," + Decimal(CountStart(h.body, " ") + CountStart(h.body, "+")) + " @@"] +
                 h.body) &&
    ApplyHunk(DocLines(was), h) == Some(DocLines(now))
  }

  lemma DiffShows(path: string, was: string, now: string)
    ensures Shows(path, was, now, ContextDiff(path, was, now))
  {
    hide MakeHunk, DocLines, Decimal, Flat, CountStart, ApplyHunk;
    var h := MakeHunk(DocLines(was), DocLines(now));
    if was == now {
      assert DiffLines(path, was, now) == ["--- a/" + path, "+++ b/" + path, "@@ no changes @@"];
    } else {
      HunkPatches(DocLines(was), DocLines(now));
      HeaderCounts(DocLines(was), DocLines(now));
      assert DiffLines(path, was, now) == ["--- a/" + path, "+++ b/" + path, HunkHeader(h)] + h.body;
      assert ShowsHunk(path, was, now, ContextDiff(path, was, now), h);
    }
  }

  /** A preview, whatever comes of it.  It is refused, and why, exactly for a path that is not allowed and a file
      that is not text; else it shows the change from what is there to the content, the hashes of both and
      when the file was written, and it is applicable exactly when every part of the base that is given is
      the file's own. */
  lemma PreviewAnswers(cfg: Config, d: Disk, path: string, content: string, base: Base)
    ensures var r, text := DoPreview(cfg, d, path, content, base).1, TextAt(d.files, path);
            if cfg.verdict(path) == Outside then r == PreviewFailed(OutsideWorkspace)
            else if cfg.verdict(path) == Denied then r == PreviewFailed(DeniedByPolicy)
            else if text.None? then r == PreviewFailed(BinaryFile)
            else
              r.Previewed? && r.newHash == cfg.hash(content) && r.hash == cfg.hash(text.value) &&
              r.mtime == StampAt(cfg, d.files, path) && Shows(path, text.value, content, r.diff) &&
              (r.applicable <==> base.mtime in {"", r.mtime} && base.hash in {"", r.hash})
  {
    hide ContextDiff, Shows, Evict, WithoutStatus, Decode;
    if TextAt(d.files, path).Some? { DiffShows(path, TextAt(d.files, path).value, content); }
  }

  // ----- All files of a plan -------------------------------------------------------------

  /** The file can be previewed. */
  predicate Viewable(cfg: Config, files: map<string, File>, path: string)
  {
    cfg.verdict(path) == Allowed && TextAt(files, path).Some?
  }

  ghost predicate AllViewable(cfg: Config, files: map<string, File>, plan: seq<PlannedFile>, n: nat)
    requires n <= |plan|
  {
    forall i :: 0 <= i < n ==> Viewable(cfg, files, plan[i].path)
  }

  /** What the i-th preview of a plan leaves pending. */
  function PreviewOf(cfg: Config, d: Disk, files: seq<PlannedFile>, i: nat): Preview
    requires i < |files|
  {
    var f, id := files[i], ClockAt(cfg, d.clock, i + 1);
    Preview(id, f.path, StampAt(cfg, d.files, f.path), cfg.hash(TextAt(d.files, f.path).GetOr("")), cfg.hash(f.finalContent),
            id / 1000, true, Some(f.finalContent))
  }

  function PreviewsOf(cfg: Config, d: Disk, files: seq<PlannedFile>, n: nat): (out: seq<Preview>)
    requires n <= |files|
    ensures |out| == n && forall i :: 0 <= i < n ==> out[i] == PreviewOf(cfg, d, files, i)
  {
    seq(n, i requires 0 <= i < n => PreviewOf(cfg, d, files, i))
  }

  /** The i-th file of the answer: the change to its planned content, and the counts of that diff. */
  ghost predicate Answers(cfg: Config, d: Disk, files: seq<PlannedFile>, i: nat, p: FilePreview)
    requires i < |files|
  {
    p.path == files[i].path && p.id == ClockAt(cfg, d.clock, i + 1) && p.applicable &&
    TextAt(d.files, files[i].path).Some? &&
    Shows(files[i].path, TextAt(d.files, files[i].path).value, files[i].finalContent, p.diff) &&
    p.stats == Analyzed(GetLines(p.diff))
  }

  /** Where the previews of the first n files have come to. */
  ghost predicate CameAlong(cfg: Config, d: Disk, files: seq<PlannedFile>, n: nat, r: PreviewRun)
    requires n <= |files|
  {
    r.disk.files == d.files &&
    (r.failed <==> !AllViewable(cfg, d.files, files, n)) &&
    (!r.failed ==>
      |r.done| == n && (forall i :: 0 <= i < n ==> Answers(cfg, d, files, i, r.done[i])) &&
      r.disk.clock == ClockAt(cfg, d.clock, n) &&
      r.disk.pending == if n == 0 then d.pending else Newest(d.pending + PreviewsOf(cfg, d, files, n), cfg.previewKeep))
  }

  lemma NewestPreviews(a: seq<Preview>, news: seq<Preview>, p: Preview, keep: nat)
    ensures Newest(Newest(a + news, keep) + [p], keep) == Newest(a + (news + [p]), keep)
  {
    assert a + (news + [p]) == a + news + [p];
  }

  lemma EvictKeepsNewest(cfg: Config, d: Disk)
    ensures Evict(cfg, d).pending == Newest(d.pending, cfg.previewKeep)
    ensures Evict(cfg, d).files == d.files && Evict(cfg, d).clock == d.clock
  {
    hide MarkEvicted;
  }

  /** What a preview changes on the disk. */
  lemma PreviewLeaves(cfg: Config, d: Disk, path: string, content: string)
    ensures var (e, r) := DoPreview(cfg, d, path, content, NO_BASE);
            e.files == d.files && e.clock == TickAt(cfg, d.clock) &&
            (r.Previewed? <==> Viewable(cfg, d.files, path)) &&
            (r.Previewed? ==>
              r.id == e.clock && r.applicable &&
              e.pending == Newest(d.pending + [Preview(e.clock, path, StampAt(cfg, d.files, path), cfg.hash(TextAt(d.files, path).value),
                                                       cfg.hash(content), e.clock / 1000, true, Some(content))], cfg.previewKeep))
  {
    hide ContextDiff, Evict, WithoutStatus, Decode, Newest;
    var t := Tick(cfg, d);
    if Viewable(cfg, d.files, path) {
      var s := ReadState(cfg, d.files, path).value;
      var p := Preview(t.clock, path, s.mtime, s.hash, cfg.hash(content), t.clock / 1000, true, Some(content));
      EvictKeepsNewest(cfg, t.(pending := t.pending + [p], statuses := WithoutStatus(t.statuses, t.clock)));
    }
  }

  lemma NextPreview(cfg: Config, d: Disk, files: seq<PlannedFile>, n: nat, r: PreviewRun)
    requires n < |files| && CameAlong(cfg, d, files, n, r) && !r.failed
    ensures var (e, p) := DoPreview(cfg, r.disk, files[n].path, files[n].finalContent, NO_BASE);
            e.files == d.files && (p.Previewed? <==> Viewable(cfg, d.files, files[n].path)) &&
            (p.Previewed? ==>
              Answers(cfg, d, files, n, FilePreview(files[n].path, p.id, p.applicable, p.diff, Analyzed(GetLines(p.diff)))) &&
              e.clock == ClockAt(cfg, d.clock, n + 1) &&
              e.pending == Newest(d.pending + PreviewsOf(cfg, d, files, n + 1), cfg.previewKeep))
  {
    hide DoPreview, Shows, TextAt, Newest, Analyzed, GetLines;
    var f := files[n];
    PreviewLeaves(cfg, r.disk, f.path, f.finalContent);
    PreviewAnswers(cfg, r.disk, f.path, f.finalContent, NO_BASE);
    var p := PreviewOf(cfg, d, files, n);
    assert PreviewsOf(cfg, d, files, n + 1) == PreviewsOf(cfg, d, files, n) + [p];
    if n == 0 {
      assert PreviewsOf(cfg, d, files, 0) + [p] == [p];
    } else {
      NewestPreviews(d.pending, PreviewsOf(cfg, d, files, n), p, cfg.previewKeep);
    }
  }

  lemma FurtherAlong(cfg: Config, d: Disk, files: seq<PlannedFile>, n: nat, r: PreviewRun)
    requires n < |files| && CameAlong(cfg, d, files, n, r) && !r.failed
    ensures var (e, p) := DoPreview(cfg, r.disk, files[n].path, files[n].finalContent, NO_BASE);
            CameAlong(cfg, d, files, n + 1,
                      if p.PreviewFailed? then PreviewRun(e, r.done, true)
                      else PreviewRun(e, r.done + [FilePreview(files[n].path, p.id, p.applicable, p.diff, Analyzed(GetLines(p.diff)))], false))
  {
    hide DoPreview, Answers, Viewable, Newest, Analyzed, GetLines, ClockAt;
    NextPreview(cfg, d, files, n, r);
    assert AllViewable(cfg, d.files, files, n + 1) <==>
           AllViewable(cfg, d.files, files, n) && Viewable(cfg, d.files, files[n].path);
    var (e, p) := DoPreview(cfg, r.disk, files[n].path, files[n].finalContent, NO_BASE);
    if p.Previewed? {
      var item := FilePreview(files[n].path, p.id, p.applicable, p.diff, Analyzed(GetLines(p.diff)));
      assert forall i :: 0 <= i < n ==> (r.done + [item])[i] == r.done[i];
      assert Answers(cfg, d, files, n, item);
      assert forall i :: 0 <= i < n + 1 ==> Answers(cfg, d, files, i, (r.done + [item])[i]);
    }
  }

  lemma {:induction false} PreviewsCome(cfg: Config, d: Disk, files: seq<PlannedFile>, n: nat)
    requires n <= |files|
    ensures CameAlong(cfg, d, files, n, PreviewFirst(cfg, d, files, n))
  {
    hide DoPreview, CameAlong, Analyzed, GetLines;
    if n == 0 {
      NothingPreviewed(cfg, d, files);
    } else {
      PreviewsCome(cfg, d, files, n - 1);
      var r := PreviewFirst(cfg, d, files, n - 1);
      if r.failed {
        FailedStays(cfg, d, files, n - 1, r);
      } else {
        FurtherAlong(cfg, d, files, n - 1, r);
      }
    }
  }

  lemma NothingPreviewed(cfg: Config, d: Disk, files: seq<PlannedFile>)
    ensures CameAlong(cfg, d, files, 0, PreviewFirst(cfg, d, files, 0))
  {
    hide Viewable, Answers;
  }

  lemma FailedStays(cfg: Config, d: Disk, files: seq<PlannedFile>, n: nat, r: PreviewRun)
    requires n < |files| && CameAlong(cfg, d, files, n, r) && r.failed
    ensures CameAlong(cfg, d, files, n + 1, r)
  {
    hide Viewable, Answers;
  }

  // ----- A session preview ---------------------------------------------------------------

  lemma {:induction false} ClockRises(cfg: Config, clock: nat, i: nat, j: nat)
    requires i < j
    ensures ClockAt(cfg, clock, i) < ClockAt(cfg, clock, j)
  {
    if i < j - 1 { ClockRises(cfg, clock, i, j - 1); }
  }

  ghost predicate Rising(pending: seq<Preview>)
  {
    forall i, j :: 0 <= i < j < |pending| ==> pending[i].id < pending[j].id
  }

  lemma PreviewsRise(cfg: Config, d: Disk, files: seq<PlannedFile>, n: nat)
    requires Sound(d) && n <= |files|
    ensures Rising(d.pending + PreviewsOf(cfg, d, files, n))
  {
    hide ClockAt, StatusesSettled, RisingBackups;
    var all, m := d.pending + PreviewsOf(cfg, d, files, n), |d.pending|;
    assert ClockAt(cfg, d.clock, 0) == d.clock by { ClockStart(cfg, d.clock); }
    forall i, j | 0 <= i < j < |all| ensures all[i].id < all[j].id {
      if j >= m {
        assert all[j].id == ClockAt(cfg, d.clock, j - m + 1);
        ClockRises(cfg, d.clock, if i < m then 0 else i - m + 1, j - m + 1);
      }
    }
  }

  lemma ClockStart(cfg: Config, clock: nat)
    ensures ClockAt(cfg, clock, 0) == clock
  {
  }

  /** A preview is found by its id as long as it is among the newest that are kept. */
  lemma FoundWhileKept(pending: seq<Preview>, keep: nat, k: nat)
    requires Rising(pending) && k < |pending|
    ensures FindPreview(Newest(pending, keep), pending[k].id) ==
            if keep == 0 || |pending| - k <= keep then Some(pending[k]) else None
  {
    hide FindPreview, Rising;
    var kept, id := Newest(pending, keep), pending[k].id;
    var cut := |pending| - |kept|;
    assert kept == pending[cut..] && (k >= cut ==> kept[k - cut].id == id);
    hide Newest;
    var r := FindPreview(kept, id);
    if r.Some? {
      var j :| 0 <= j < |kept| && kept[j] == r.value;
      SameId(pending, cut + j, k);
    }
  }

  lemma SameId(pending: seq<Preview>, i: nat, j: nat)
    requires Rising(pending) && i < |pending| && j < |pending| && pending[i].id == pending[j].id
    ensures i == j
  {
  }

  lemma PendingAfter(cfg: Config, d: Disk, files: seq<PlannedFile>, i: nat)
    requires Sound(d) && i < |files|
    ensures FindPreview(Newest(d.pending + PreviewsOf(cfg, d, files, |files|), cfg.previewKeep), ClockAt(cfg, d.clock, i + 1)) ==
            if cfg.previewKeep == 0 || |files| - i <= cfg.previewKeep then Some(PreviewOf(cfg, d, files, i)) else None
  {
    hide FindPreview, Newest, Sound, ClockAt;
    PreviewsRise(cfg, d, files, |files|);
    FoundWhileKept(d.pending + PreviewsOf(cfg, d, files, |files|), cfg.previewKeep, |d.pending| + i);
  }

  /** What a session preview says of one staged file: the change from the text on the disk to the replay of the
      file's own staged changes, with the counts of that diff; and the preview of its id holds that replay,
      as long as it is kept. */
  ghost predicate Previewed(cfg: Config, d: Disk, s: Sess, after: seq<Preview>, newer: nat, p: FilePreview)
  {
    var text, now := TextAt(d.files, p.path), Replay(ChangesFor(LoadAll(s.entries), p.path), BytesAt(d.files, p.path).GetOr(""));
    text.Some? && now.Some? && p.applicable && Shows(p.path, text.value, now.value, p.diff) &&
    p.stats == Analyzed(GetLines(p.diff)) &&
    var found := FindPreview(after, p.id);
    (found.Some? <==> cfg.previewKeep == 0 || newer < cfg.previewKeep) &&
    (found.Some? ==>
      found.value.path == p.path && found.value.content == Some(now.value) && found.value.newHash == cfg.hash(now.value) &&
      found.value.hash == cfg.hash(text.value) && found.value.intact)
  }

  lemma PlannedPreviewed(cfg: Config, d: Disk, s: Sess, i: nat)
    requires Sound(d) && Ready(cfg, d, s).Some? && DoPreviewAll(cfg, d, s).2.Some?
    requires i < |Ready(cfg, d, s).value|
    ensures var files, e, out := Ready(cfg, d, s).value, DoPreviewAll(cfg, d, s).0, DoPreviewAll(cfg, d, s).2.value;
            |out| == |files| && out[i].path == files[i].path && Previewed(cfg, d, s, e.pending, |out| - i - 1, out[i])
  {
    hide Ready, LoadAll, PlanOf, ProbeOf, PreviewFirst, Replay, ChangesFor, Sound, Newest, TextAt, ClockAt, FindPreview, Shows, GetLines,
      Analyzed, BytesAt, AllViewable;
    var files := Ready(cfg, d, s).value;
    PreviewsCome(cfg, d, files, |files|);
    ReadyIsPlan(cfg, d, s);
    PlanIsPerFile(LoadAll(s.entries), Contents(ProbeOf(cfg, d.files)));
    SeenContent(cfg, d.files, files[i].path);
    PendingAfter(cfg, d, files, i);
    assert Answers(cfg, d, files, i, DoPreviewAll(cfg, d, s).2.value[i]);
  }

  /** The answer of a session preview.  There is one exactly when the session is active and each staged file is on
      the base of its first change, takes its changes, is allowed, and is text; it then goes over the staged
      files in the order of their paths. */
  lemma SessionPreviewAnswers(cfg: Config, d: Disk, s: Sess)
    requires Sound(d)
    ensures DoPreviewAll(cfg, d, s).2.Some? <==>
            Active(s) && forall p :: ChangesFor(LoadAll(s.entries), p) != [] ==>
              var mine := ChangesFor(LoadAll(s.entries), p);
              OnItsBase(cfg, d.files, mine[0]) && Replay(mine, BytesAt(d.files, p).GetOr("")).Some? && Viewable(cfg, d.files, p)
    ensures DoPreviewAll(cfg, d, s).2.Some? ==>
            var (e, t, answer) := DoPreviewAll(cfg, d, s);
            var out := answer.value;
            (forall i, j :: 0 <= i < j < |out| ==> Less(out[i].path, out[j].path)) &&
            (forall p :: ChangesFor(LoadAll(s.entries), p) != [] <==> exists i :: 0 <= i < |out| && out[i].path == p) &&
            (forall i :: 0 <= i < |out| ==> Previewed(cfg, d, s, e.pending, |out| - i - 1, out[i])) &&
            e.files == d.files && t == if out == [] then s else s.(stage := InPreview)
  {
    hide Ready, LoadAll, PlanOf, ProbeOf, Replay, ChangesFor, Sound, Active, OnItsBase, Viewable, Previewed, BytesAt, Less, AllViewable,
      DoPreviewAll;
    ReadyIsExact(cfg, d, s);
    if Ready(cfg, d, s).None? {
      NotReadyRefused(cfg, d, s);
      ViewableInside(cfg, d);
    } else {
      var files := Ready(cfg, d, s).value;
      PreviewSome(cfg, d, s);
      PlanViewable(cfg, d, s);
      if DoPreviewAll(cfg, d, s).2.Some? {
        forall i | 0 <= i < |files|
          ensures var out := DoPreviewAll(cfg, d, s).2.value;
                  |out| == |files| && out[i].path == files[i].path && Previewed(cfg, d, s, DoPreviewAll(cfg, d, s).0.pending, |out| - i - 1, out[i])
        {
          PlannedPreviewed(cfg, d, s, i);
        }
        SamePaths(files, DoPreviewAll(cfg, d, s).2.value, LoadAll(s.entries));
      }
    }
  }

  lemma ViewableInside(cfg: Config, d: Disk)
    ensures forall p :: Viewable(cfg, d.files, p) ==> cfg.verdict(p) != Outside
  {
    hide TextAt;
  }

  lemma PlanViewable(cfg: Config, d: Disk, s: Sess)
    requires Ready(cfg, d, s).Some?
    ensures var files, changes := Ready(cfg, d, s).value, LoadAll(s.entries);
            (AllViewable(cfg, d.files, files, |files|) <==>
              forall p :: ChangesFor(changes, p) != [] ==> Viewable(cfg, d.files, p)) &&
            (forall i, j :: 0 <= i < j < |files| ==> Less(files[i].path, files[j].path)) &&
            (forall p :: ChangesFor(changes, p) != [] <==> exists i :: 0 <= i < |files| && files[i].path == p)
  {
    hide Ready, LoadAll, PlanOf, ProbeOf, Replay, ChangesFor, Viewable, Less;
    ReadyIsPlan(cfg, d, s);
    PlanIsPerFile(LoadAll(s.entries), Contents(ProbeOf(cfg, d.files)));
  }

  lemma SamePaths(files: seq<PlannedFile>, out: seq<FilePreview>, changes: seq<StagedChange>)
    requires |out| == |files| && forall i :: 0 <= i < |files| ==> out[i].path == files[i].path
    requires forall p :: ChangesFor(changes, p) != [] <==> exists i :: 0 <= i < |files| && files[i].path == p
    ensures forall p :: ChangesFor(changes, p) != [] <==> exists i :: 0 <= i < |out| && out[i].path == p
  {
    hide ChangesFor;
    forall p ensures ChangesFor(changes, p) != [] <==> exists i :: 0 <= i < |out| && out[i].path == p {
      if i :| 0 <= i < |out| && out[i].path == p { assert files[i].path == p; }
    }
  }

  /** A ready session is previewed exactly when each planned file can be. */
  lemma PreviewSome(cfg: Config, d: Disk, s: Sess)
    requires Ready(cfg, d, s).Some?
    ensures var files := Ready(cfg, d, s).value;
            (DoPreviewAll(cfg, d, s).2.Some? <==> AllViewable(cfg, d.files, files, |files|)) &&
            (DoPreviewAll(cfg, d, s).2.Some? ==>
              |DoPreviewAll(cfg, d, s).2.value| == |files| && DoPreviewAll(cfg, d, s).0.files == d.files &&
              DoPreviewAll(cfg, d, s).1 == if files == [] then s else s.(stage := InPreview))
  {
    hide Ready, PreviewFirst, AllViewable, Answers, Newest, ClockAt;
    PreviewsCome(cfg, d, Ready(cfg, d, s).value, |Ready(cfg, d, s).value|);
  }
}

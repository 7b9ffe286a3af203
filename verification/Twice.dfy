/** What a second commit makes of a file that a stopped commit had already written: when it stays as it
    is, and when the changes land twice (session_service.cpp). */
module Twice {
  import opened Text
  import opened TextLines
  import opened ChangeRecord
  import opened Selectors
  import opened Edits
  import opened Plan
  import opened Encoding
  import opened PatchStore
  import opened Undo
  import opened Sessions
  import opened SessionRuns
  import opened Spared
  import opened Retry

  // ----- When a file written twice stays as it is ----------------------------------------

  /** The file between the two commits: text, canonical, and the one content the second replays. */
  lemma TwiceWritten(cfg: Config, id: string, d: Disk, s: Sess, calls: seq<Call>, p: string)
      returns (first: string, made: string, format: Format)
    requires Retried(cfg, id, d, s, calls, p) && Reached(cfg, d, s, p)
    ensures BytesAt(Left(cfg, d, s).disk.files, p) == Some(first) && Replay(Mine(s, p), first).Some?
    ensures Replay(Mine(s, p), BytesAt(d.files, p).GetOr("")) == Some(made) && first == Encode(made, format)
    ensures Decode(first).Some? && Encode(Decode(first).value.text, Decode(first).value.format) == first
    ensures BytesAt(Again(cfg, id, d, s, calls).0.files, p) ==
            Some(Encode(Replay(Mine(s, p), first).value, Decode(first).value.format))
  {
    hide Ready, Left, Again, SparesAll, Sound, Mine, Replay, Encode, Decode, Reached;
    RetryWrites(cfg, id, d, s, calls, p);
    StoppedPath(cfg, d, s, p);
    var left := Left(cfg, d, s).disk.files;
    first, made := BytesAt(left, p).value, Replay(Mine(s, p), BytesAt(d.files, p).GetOr("")).value;
    format := ReadState(cfg, d.files, p).value.format;
    WrittenIsStable(made, format);
  }

  /** A file written twice keeps its bytes exactly when its changes, replayed on these bytes, give the
      text that is in the file, carriage returns aside. */
  lemma RetryKeeps(cfg: Config, id: string, d: Disk, s: Sess, calls: seq<Call>, p: string)
    requires Retried(cfg, id, d, s, calls, p) && Reached(cfg, d, s, p)
    ensures var first, end := BytesAt(Left(cfg, d, s).disk.files, p), BytesAt(Again(cfg, id, d, s, calls).0.files, p);
            first.Some? && Decode(first.value).Some? && Replay(Mine(s, p), first.value).Some? &&
            (end == first <==> StripCR(Replay(Mine(s, p), first.value).value) == StripCR(Decode(first.value).value.text))
  {
    hide Retried, Left, Again, Mine, Replay, Encode, Decode, Reached, BytesAt, StripCR;
    var first, made, format := TwiceWritten(cfg, id, d, s, calls, p);
    SameEncoded(Replay(Mine(s, p), first).value, Decode(first).value.text, Decode(first).value.format);
  }

  /** Making a change again on a file without a byte order mark that it has made leaves the file: the
      change replaces a block or a range by one of the same kind, carriage returns aside. */
  predicate SettlesInFile(c: StagedChange, made: string)
  {
    match OperationOf(c.operation)
    case ReplaceContent => true
    case ReplaceRange => |DocLines(c.newContent)| == c.lineEnd - c.lineStart + 1 && c.lineEnd <= |DocLines(made)|
    case ReplaceBlock => StripCR(c.newContent) == StripCR(c.selector.query)
    case DeleteBlock => StripCR(c.selector.query) == ""
    case _ => StripCR(c.newContent) == ""
  }

  lemma SplicedStrips(front: string, text: string, other: string, tail: string)
    ensures StripCR(front + text + tail) == StripCR(front + other + tail) <==> StripCR(text) == StripCR(other)
  {
    hide StripCR;
    StripConcat(front + text, tail);
    StripConcat(front, text);
    StripConcat(front + other, tail);
    StripConcat(front, other);
    var f, t, o, e := StripCR(front), StripCR(text), StripCR(other), StripCR(tail);
    if f + t + e == f + o + e {
      assert |t| == |o|;
      assert (f + t + e)[|f|..|f| + |t|] == t && (f + o + e)[|f|..|f| + |o|] == o;
    }
  }

  lemma BlockInFile(c: StagedChange, content: string)
    requires OperationOf(c.operation) !in {ReplaceContent, ReplaceRange} && Apply(c, content).Some?
    ensures StripCR(Apply(c, content).value) == StripCR(content) <==> SettlesInFile(c, content)
  {
    hide OperationOf, Resolve, StripCR;
    var r := Edits.Target(content, c.selector).value;
    TargetIsQuery(content, c.selector);
    NoEdit(content, r);
    StripNil();
    var front, back := content[..r.start], content[r.end..];
    match OperationOf(c.operation)
    case ReplaceBlock => SplicedStrips(front, c.newContent, c.selector.query, back);
    case InsertBefore => SplicedStrips(front, c.newContent, "", content[r.start..]);
    case InsertAfter => SplicedStrips(content[..r.end], c.newContent, "", back);
    case DeleteBlock =>
      SplicedStrips(front, "", c.selector.query, back);
      assert front + "" + back == front + back;
    case _ =>
  }

  lemma EndsLaid(s: string, eol: Eol)
    requires '\r' !in s
    ensures EndsLine(Laid(s, eol)) <==> EndsLine(s)
  {
    hide StripCR;
    StripCROfClean(s);
  }

  /** A range edit sees the lines of a file, not its line ends. */
  lemma RangeLaid(c: StagedChange, made: string, eol: Eol)
    requires OperationOf(c.operation) == ReplaceRange && '\r' !in made
    ensures DocLines(Laid(made, eol)) == DocLines(made) && Apply(c, Laid(made, eol)) == Apply(c, made)
  {
    hide StripCR, WithCR, Pieces, OperationOf;
    LaidStrips(made, eol);
    EndsLaid(made, eol);
    NothingLaid(made, eol);
    StripCROfClean(made);
  }

  lemma RangeInFile(c: StagedChange, content: string, eol: Eol)
    requires OperationOf(c.operation) == ReplaceRange && Apply(c, content).Some?
    requires Apply(c, Laid(Apply(c, content).value, eol)).Some?
    ensures var first := Laid(Apply(c, content).value, eol);
            StripCR(Apply(c, first).value) == StripCR(first) <==> SettlesInFile(c, first)
  {
    hide OperationOf, DocLines, StripCR, Laid, Edits.Target;
    var made := Apply(c, content).value;
    RangeMade(c, content);
    RangeLaid(c, made, eol);
    RangeMade(c, made);
    LaidStrips(made, eol);
    StripCROfClean(made);
    StripCROfClean(Apply(c, made).value);
    AppliedTwice(c, content);
  }

  lemma WholeInFile(c: StagedChange, eol: Eol, first: string)
    requires OperationOf(c.operation) == ReplaceContent && first == Laid(c.newContent, eol)
    ensures StripCR(c.newContent) == StripCR(first) && SettlesInFile(c, first)
  {
    hide StripCR, Laid, OperationOf;
    LaidStrips(c.newContent, eol);
  }

  lemma OnceMore(c: StagedChange, content: string, eol: Eol)
    requires Apply(c, content).Some? && Apply(c, Laid(Apply(c, content).value, eol)).Some?
    ensures var first := Laid(Apply(c, content).value, eol);
            StripCR(Apply(c, first).value) == StripCR(first) <==> SettlesInFile(c, first)
  {
    hide OperationOf, DocLines, StripCR, Laid, Edits.Target, SettlesInFile;
    var first := Laid(Apply(c, content).value, eol);
    if OperationOf(c.operation) == ReplaceContent {
      WholeFileSettles(c, content);
      WholeFileSettles(c, first);
      WholeInFile(c, eol, first);
    } else if OperationOf(c.operation) == ReplaceRange {
      RangeInFile(c, content, eol);
    } else {
      BlockInFile(c, first);
    }
  }

  lemma UnmarkedBytes(content: string, format: Format)
    requires FileMark(Encode(content, format)) == "" && Decode(Encode(content, format)).Some?
    ensures Encode(content, format) == Laid(content, format.eol) == Decode(Encode(content, format)).value.text
  {
    hide Laid, EolOf, FileMark;
    var raw := Encode(content, format);
    if format.bom {
      FileMarkOfMarked(format, Laid(content, format.eol));
    } else {
      NoMark(format);
      assert raw == Laid(content, format.eol) && raw[0..] == raw;
    }
  }

  lemma ReplayOne(c: StagedChange, content: string)
    ensures Replay([c], content) == Apply(c, content)
  {
    hide Apply;
    assert [c][..0] == [];
  }

  /** A path written by a single change, without a byte order mark: the second commit leaves it byte for
      byte, whatever its line ends, exactly when the change settles in it. */
  lemma SingleChangeTwice(cfg: Config, id: string, d: Disk, s: Sess, calls: seq<Call>, p: string, c: StagedChange)
    requires Retried(cfg, id, d, s, calls, p) && Reached(cfg, d, s, p) && Mine(s, p) == [c]
    requires FileMark(BytesAt(Left(cfg, d, s).disk.files, p).GetOr("")) == ""
    ensures var first, end := BytesAt(Left(cfg, d, s).disk.files, p), BytesAt(Again(cfg, id, d, s, calls).0.files, p);
            first.Some? && (end == first <==> SettlesInFile(c, first.value))
  {
    hide Retried, Left, Again, Mine, Replay, Encode, Decode, Reached, BytesAt, StripCR, Laid, SettlesInFile, Apply, FileMark;
    var first, made, format := TwiceWritten(cfg, id, d, s, calls, p);
    RetryKeeps(cfg, id, d, s, calls, p);
    ReplayOne(c, BytesAt(d.files, p).GetOr(""));
    ReplayOne(c, first);
    UnmarkedBytes(made, format);
    OnceMore(c, BytesAt(d.files, p).GetOr(""), format.eol);
  }

  // ----- Insertions land twice -----------------------------------------------------------

  predicate Inserts(c: StagedChange) { OperationOf(c.operation) in {InsertBefore, InsertAfter} }

  /** The bytes that insertions add to a file. */
  function InsertedSize(changes: seq<StagedChange>, eol: Eol): nat
  {
    if changes == [] then 0
    else InsertedSize(changes[..|changes| - 1], eol) + |Laid(changes[|changes| - 1].newContent, eol)|
  }

  lemma InsertGrows(c: StagedChange, content: string, eol: Eol)
    requires Inserts(c) && Apply(c, content).Some?
    ensures |Laid(Apply(c, content).value, eol)| == |Laid(content, eol)| + |Laid(c.newContent, eol)|
  {
    hide OperationOf, Resolve, Laid;
    var r := Edits.Target(content, c.selector).value;
    var at := if OperationOf(c.operation) == InsertBefore then r.start else r.end;
    LaidJoins(content[..at] + c.newContent, content[at..], eol);
    LaidJoins(content[..at], c.newContent, eol);
    LaidJoins(content[..at], content[at..], eol);
    assert content[..at] + content[at..] == content;
  }

  lemma {:induction false} InsertionsGrow(changes: seq<StagedChange>, content: string, eol: Eol)
    requires forall c :: c in changes ==> Inserts(c)
    requires Replay(changes, content).Some?
    ensures |Laid(Replay(changes, content).value, eol)| == |Laid(content, eol)| + InsertedSize(changes, eol)
  {
    hide Inserts, Apply, Laid;
    if changes != [] {
      var front, last := changes[..|changes| - 1], changes[|changes| - 1];
      assert last in changes && forall c :: c in front ==> c in changes;
      InsertionsGrow(front, content, eol);
      InsertGrows(last, Replay(front, content).value, eol);
    }
  }

  lemma {:induction false} NothingInserted(changes: seq<StagedChange>, eol: Eol)
    ensures InsertedSize(changes, eol) == 0 <==> forall c :: c in changes ==> StripCR(c.newContent) == ""
  {
    hide Laid, StripCR;
    if changes != [] {
      var front, last := changes[..|changes| - 1], changes[|changes| - 1];
      assert changes == front + [last];
      NothingInserted(front, eol);
      NothingLaid(last.newContent, eol);
    }
  }

  lemma NothingLaid(text: string, eol: Eol)
    ensures |Laid(text, eol)| == 0 <==> StripCR(text) == ""
  {
    hide StripCR;
    LaidStrips(text, eol);
    StripNil();
    WithCRNil();
  }

  lemma LaidMark(format: Format)
    ensures Laid(Mark(format), format.eol) == Mark(format)
  {
    hide StripCR, WithCR;
    StripCROfClean(Mark(format));
    NoNewlineLaid(Mark(format));
  }

  /** A path written by insertions alone, however many, grows on the second commit by exactly what they
      insert, laid out as the file is, and by another byte order mark if it has one. */
  lemma InsertionsTwice(cfg: Config, id: string, d: Disk, s: Sess, calls: seq<Call>, p: string)
    requires Retried(cfg, id, d, s, calls, p) && Reached(cfg, d, s, p)
    requires forall c :: c in Mine(s, p) ==> Inserts(c)
    ensures var first, end := BytesAt(Left(cfg, d, s).disk.files, p), BytesAt(Again(cfg, id, d, s, calls).0.files, p);
            first.Some? && end.Some? && Decode(first.value).Some? &&
            var format := Decode(first.value).value.format;
            |end.value| == |first.value| + |Mark(format)| + InsertedSize(Mine(s, p), format.eol) &&
            (|end.value| == |first.value| <==> !format.bom && forall c :: c in Mine(s, p) ==> StripCR(c.newContent) == "")
  {
    hide Retried, Left, Again, Mine, Replay, Decode, Reached, BytesAt, StripCR, Laid, Inserts;
    var first, made, format := TwiceWritten(cfg, id, d, s, calls, p);
    var found := Decode(first).value;
    InsertionsGrow(Mine(s, p), first, found.format.eol);
    DecodeParts(first);
    LaidJoins(Mark(found.format), found.text, found.format.eol);
    LaidMark(found.format);
    NothingInserted(Mine(s, p), found.format.eol);
  }
}

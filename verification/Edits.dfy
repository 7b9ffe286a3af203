/** Replaying one staged change on a content (session_service.cpp: apply_change_to_content,
    change_can_rebase_on_content). */
module Edits {
  import opened Text
  import opened TextLines
  import opened ChangeRecord
  import opened Selectors

  datatype Operation =
    ReplaceContent | ReplaceRange | ReplaceBlock | InsertBefore | InsertAfter | DeleteBlock | Unsupported

  function OperationOf(name: string): Operation
  {
    if name == "replace_content" then ReplaceContent
    else if name == "replace_range" then ReplaceRange
    else if name == "replace_block" then ReplaceBlock
    else if name == "insert_before" then InsertBefore
    else if name == "insert_after" then InsertAfter
    else if name == "delete_block" then DeleteBlock
    else Unsupported
  }

  /** The names of the operations, none for any other. */
  lemma OperationNames(name: string)
    ensures OperationOf(name) == ReplaceContent <==> name == "replace_content"
    ensures OperationOf(name) == ReplaceRange <==> name == "replace_range"
    ensures OperationOf(name) == ReplaceBlock <==> name == "replace_block"
    ensures OperationOf(name) == InsertBefore <==> name == "insert_before"
    ensures OperationOf(name) == InsertAfter <==> name == "insert_after"
    ensures OperationOf(name) == DeleteBlock <==> name == "delete_block"
  {
  }

  predicate ValidRange(c: StagedChange, lines: seq<string>)
  {
    0 < c.lineStart <= c.lineEnd <= |lines|
  }

  function SplicedLines(c: StagedChange, lines: seq<string>): seq<string>
    requires ValidRange(c, lines)
  {
    lines[..c.lineStart - 1] + DocLines(c.newContent) + lines[c.lineEnd..]
  }

  /** The edit of a block operation on a chosen target; None for an unknown operation. */
  function EditAt(op: Operation, content: string, r: Range, text: string): Option<string>
    requires r.start <= r.end <= |content|
  {
    match op
    case ReplaceBlock => Some(content[..r.start] + text + content[r.end..])
    case InsertBefore => Some(content[..r.start] + text + content[r.start..])
    case InsertAfter => Some(content[..r.end] + text + content[r.end..])
    case DeleteBlock => Some(content[..r.start] + content[r.end..])
    case _ => None
  }

  function Target(content: string, sel: Selector): (r: Option<Range>)
    ensures r == Resolve(content, sel)
    ensures r.Some? ==> r.value.start <= r.value.end <= |content|
  {
    ResolveInside(content, sel);
    Resolve(content, sel)
  }

  /** The content a change makes of `content`, or None for the error it reports. */
  function Apply(c: StagedChange, content: string): Option<string>
  {
    match OperationOf(c.operation)
    case ReplaceContent => Some(c.newContent)
    case ReplaceRange =>
      var lines := DocLines(content);
      if ValidRange(c, lines)
      then Some(JoinLines(SplicedLines(c, lines), EndsLine(content) || EndsLine(c.newContent)))
      else None
    case op =>
      match Target(content, c.selector)
      case None => None
      case Some(r) => EditAt(op, content, r, c.newContent)
  }

  method ResolveCandidate(content: string, sel: Selector) returns (r: Option<Range>)
    ensures r == Target(content, sel)
  {
    var candidates := LocateCandidates(content, sel);
    if candidates == [] { return None; }
    if sel.occurrence == 0 { return None; }
    if sel.fromEnd {
      if sel.occurrence > |candidates| { return None; }
      return Some(candidates[|candidates| - sel.occurrence]);
    }
    if sel.occurrence > |candidates| { return None; }
    return Some(candidates[sel.occurrence - 1]);
  }

  /** apply_change_to_content */
  method ApplyChangeToContent(c: StagedChange, original: string) returns (updated: Option<string>)
    ensures updated == Apply(c, original)
  {
    hide OperationOf, DocLines, EndsLine, Target;
    var op := OperationOf(c.operation);
    if op == ReplaceContent { return Some(c.newContent); }
    if op == ReplaceRange {
      var doc, trailing := MakeDocument(original);
      if c.lineStart == 0 || c.lineEnd == 0 || c.lineStart > c.lineEnd || c.lineEnd > |doc| { return None; }
      var replacement, newTrailing := MakeDocument(c.newContent);
      var lines := [];
      for i := 0 to c.lineStart - 1
        invariant lines == doc[..i]
      {
        lines := lines + [doc[i]];
      }
      lines := lines + replacement;
      ghost var front := lines;
      for i := c.lineEnd to |doc|
        invariant lines == front + doc[c.lineEnd..i]
      {
        lines := lines + [doc[i]];
      }
      assert doc[c.lineEnd..|doc|] == doc[c.lineEnd..];
      var text := JoinDocument(lines, trailing || newTrailing);
      return Some(text);
    }
    var chosen := ResolveCandidate(original, c.selector);
    if chosen.None? { return None; }
    updated := EditAt(op, original, chosen.value, c.newContent);
  }

  /** change_can_rebase_on_content */
  function CanRebase(c: StagedChange, content: string): bool
  {
    match OperationOf(c.operation)
    case ReplaceContent => c.expectedContent == [] || content == c.expectedContent
    case ReplaceRange =>
      var lines := DocLines(content);
      ValidRange(c, lines) && Joined(lines[c.lineStart - 1..c.lineEnd]) == c.expectedContent
    case _ =>
      match Target(content, c.selector)
      case None => false
      case Some(r) => c.expectedContent == [] || content[r.start..r.end] == c.expectedContent
  }

  // ----- What a change does --------------------------------------------------------------

  /** A replaced range: the lines before, the new lines, the lines behind.  The new content splits
      into exactly these lines unless it is left with an empty open last line. */
  lemma ReplacedRangeLines(c: StagedChange, content: string)
    requires OperationOf(c.operation) == ReplaceRange && Apply(c, content).Some?
    ensures var lines, next := DocLines(content), Apply(c, content).value;
            var want := SplicedLines(c, lines);
            DocLines(next) == want <==>
            EndsLine(content) || EndsLine(c.newContent) || want == [] || want[|want| - 1] != []
  {
    hide DocLines, OperationOf, JoinLines;
    DocLinesClean(content);
    DocLinesClean(c.newContent);
    var lines := DocLines(content);
    SplitOfJoin(SplicedLines(c, lines), EndsLine(content) || EndsLine(c.newContent));
  }

  lemma DocLinesClean(content: string)
    ensures CleanDocLines(DocLines(content))
  {
    hide Pieces, StripCR;
    PiecesClean(StripCR(content));
  }

  /** Text put in front of a file without making an earlier occurrence of the query: a block edit
      of the longer file is the longer file with the edit inside, and both fail together. */
  lemma EditDrift(x: string, content: string, c: StagedChange)
    requires OperationOf(c.operation) !in {ReplaceContent, ReplaceRange}
    requires c.selector.anchorBefore == [] && forall p :: 0 <= p < |x| ==> !At(x + content, p, c.selector.query)
    ensures Apply(c, x + content) ==
            match Apply(c, content) case None => None case Some(next) => Some(x + next)
    ensures CanRebase(c, x + content) == CanRebase(c, content)
  {
    hide OperationOf, Resolve;
    ResolveDrift(x, content, c.selector);
    var r := Target(content, c.selector);
    if r.Some? {
      SpliceDrift(x, content, r.value);
      match OperationOf(c.operation)
      case ReplaceBlock => DriftParts(x, content, r.value.start, r.value.end, c.newContent);
      case InsertBefore => DriftParts(x, content, r.value.start, r.value.start, c.newContent);
      case InsertAfter => DriftParts(x, content, r.value.end, r.value.end, c.newContent);
      case DeleteBlock => DriftParts(x, content, r.value.start, r.value.end, []); NoText(x + content, r.value, |x|); NoText(content, r.value, 0);
      case _ =>
    }
  }

  lemma DriftParts(x: string, content: string, i: nat, j: nat, text: string)
    requires i <= j <= |content|
    ensures (x + content)[..|x| + i] + text + (x + content)[|x| + j..] == x + (content[..i] + text + content[j..])
  {
    assert (x + content)[..|x| + i] == x + content[..i];
    assert (x + content)[|x| + j..] == content[j..];
  }

  lemma NoText(content: string, r: Range, d: nat)
    requires r.start <= r.end && r.end + d <= |content|
    ensures content[..r.start + d] + [] + content[r.end + d..] == content[..r.start + d] + content[r.end + d..]
  {
  }

  lemma SpliceDrift(x: string, content: string, r: Range)
    requires r.start <= r.end <= |content|
    ensures (x + content)[|x| + r.start..|x| + r.end] == content[r.start..r.end]
  {
  }

  // ----- Each operation on its parts -----------------------------------------------------

  /** The lines in front of a change's range, in it, and behind it. */
  predicate RangeParts(c: StagedChange, lines: seq<string>, front: seq<string>, target: seq<string>, tail: seq<string>)
  {
    lines == front + target + tail && target != [] && c.lineStart == |front| + 1 && c.lineEnd == |front| + |target|
  }

  /** A range edit of a content whose lines are known: the lines of the range give way to those of the new
      content, and the range fits as long as its lines, joined, are what was expected. */
  lemma RangeEdit(c: StagedChange, content: string, front: seq<string>, target: seq<string>, tail: seq<string>)
    requires OperationOf(c.operation) == ReplaceRange && RangeParts(c, DocLines(content), front, target, tail)
    ensures Apply(c, content) ==
            Some(JoinLines(front + DocLines(c.newContent) + tail, EndsLine(content) || EndsLine(c.newContent)))
    ensures CanRebase(c, content) <==> Joined(target) == c.expectedContent
  {
    hide DocLines, OperationOf, Joined, JoinLines;
    var lines := DocLines(content);
    assert lines[..|front|] == front && lines[|front|..c.lineEnd] == target && lines[c.lineEnd..] == tail;
  }

  /** A range that is not one of lines the content has. */
  lemma NoRangeEdit(c: StagedChange, content: string)
    requires OperationOf(c.operation) == ReplaceRange
    requires c.lineStart == 0 || c.lineEnd < c.lineStart || c.lineEnd > |DocLines(content)|
    ensures Apply(c, content).None? && !CanRebase(c, content)
  {
    hide DocLines, OperationOf;
  }

  /** A block edit: the target holds the query, the edit happens there, and the change fits as long as the
      query is what was expected, if anything was. */
  lemma BlockEdit(c: StagedChange, content: string) returns (front: string, tail: string)
    requires OperationOf(c.operation) in {ReplaceBlock, InsertBefore, InsertAfter, DeleteBlock}
    requires Resolve(content, c.selector).Some?
    ensures content == front + c.selector.query + tail && |front| == Resolve(content, c.selector).value.start
    ensures Apply(c, content) == Some(
              front +
              match OperationOf(c.operation) {
                case ReplaceBlock => c.newContent
                case InsertBefore => c.newContent + c.selector.query
                case InsertAfter => c.selector.query + c.newContent
                case _ => ""
              } +
              tail)
    ensures CanRebase(c, content) <==> c.expectedContent == "" || c.expectedContent == c.selector.query
  {
    hide OperationOf, Resolve;
    var r := Target(content, c.selector).value;
    TargetIsQuery(content, c.selector);
    front, tail := content[..r.start], content[r.end..];
    assert content == front + content[r.start..r.end] + tail;
    assert content[r.start..] == c.selector.query + tail && content[..r.end] == front + c.selector.query;
    BlockParts(front, c.selector.query, c.newContent, tail);
  }

  /** Without a target, or with an operation that is unknown, nothing is edited. */
  lemma NoBlockEdit(c: StagedChange, content: string)
    requires OperationOf(c.operation) !in {ReplaceContent, ReplaceRange}
    requires Resolve(content, c.selector).None? || OperationOf(c.operation) == Unsupported
    ensures Apply(c, content).None?
    ensures Resolve(content, c.selector).None? ==> !CanRebase(c, content)
  {
    hide OperationOf, Resolve;
  }

  /** A change that can be rebased can be applied, unless its operation is unknown. */
  lemma RebaseableApplies(c: StagedChange, content: string)
    requires CanRebase(c, content)
    ensures Apply(c, content).None? <==> OperationOf(c.operation) == Unsupported
  {
    hide OperationOf, DocLines, Resolve;
  }

  /** A block edit that can be rebased still meets the text it was staged against, and edits exactly
      there. */
  lemma RebasedBlock(c: StagedChange, content: string) returns (front: string, tail: string)
    requires CanRebase(c, content) && c.expectedContent != []
    requires OperationOf(c.operation) in {ReplaceBlock, InsertBefore, InsertAfter, DeleteBlock}
    ensures content == front + c.expectedContent + tail
    ensures Apply(c, content) == Some(
              front +
              match OperationOf(c.operation) {
                case ReplaceBlock => c.newContent
                case InsertBefore => c.newContent + c.expectedContent
                case InsertAfter => c.expectedContent + c.newContent
                case _ => ""
              } +
              tail)
  {
    hide OperationOf, Resolve, Apply, CanRebase;
    TargetNeeded(c, content);
    front, tail := BlockEdit(c, content);
  }

  lemma TargetNeeded(c: StagedChange, content: string)
    requires CanRebase(c, content) && OperationOf(c.operation) !in {ReplaceContent, ReplaceRange}
    ensures Resolve(content, c.selector).Some?
  {
    hide OperationOf, Resolve;
  }

  lemma BlockParts(front: string, target: string, text: string, tail: string)
    ensures front + text + (target + tail) == front + (text + target) + tail
    ensures front + target + text + tail == front + (target + text) + tail
    ensures front + tail == front + "" + tail
  {
  }

  /** Lines that do not split again: the last line of a file deleted behind an empty one. */
  lemma EmptyLineLost(c: StagedChange)
    requires OperationOf(c.operation) == ReplaceRange && c.lineStart == 2 && c.lineEnd == 2 && c.newContent == ""
    ensures Apply(c, "\nb") == Some("") && SplicedLines(c, DocLines("\nb")) == [""] && DocLines("") == []
  {
    hide OperationOf, Pieces, StripCR;
    StripNil();
    PiecesNil();
    StripCROfClean("\nb");
    OnePiece("b");
    PiecesConcat("", "b");
    assert "" + "\n" + "b" == "\nb";
    assert [""][..0] == [];
    assert [""] + ["b"] == ["", "b"];
    assert ["", "b"][..1] + [] + ["", "b"][2..] == [""];
  }

  // ----- The same change once more -------------------------------------------------------

  /** Making a change again on what it has made changes nothing: so for whole files, and for a range or
      a block that is replaced by one of the same kind. */
  predicate Settles(c: StagedChange, made: string)
  {
    match OperationOf(c.operation)
    case ReplaceContent => true
    case ReplaceRange => |DocLines(c.newContent)| == c.lineEnd - c.lineStart + 1 && c.lineEnd <= |DocLines(made)|
    case ReplaceBlock => c.newContent == c.selector.query
    case InsertBefore => c.newContent == ""
    case InsertAfter => c.newContent == ""
    case _ => false
  }

  lemma TargetIsQuery(content: string, sel: Selector)
    requires Target(content, sel).Some?
    ensures var r := Target(content, sel).value;
            r.end == r.start + |sel.query| && content[r.start..r.end] == sel.query && sel.query != ""
  {
    hide Locate;
    ResolveInside(content, sel);
    AtSlice(content, Target(content, sel).value.start, sel.query);
  }

  lemma BlockTwice(c: StagedChange, content: string)
    requires OperationOf(c.operation) !in {ReplaceContent, ReplaceRange} && Apply(c, content).Some?
    ensures var made := Apply(c, content).value; Apply(c, made) == Some(made) <==> Settles(c, made)
  {
    hide OperationOf, Resolve, DocLines;
    var made := Apply(c, content).value;
    var r := Target(content, c.selector).value;
    TargetIsQuery(content, c.selector);
    NoEdit(content, r);
    if Target(made, c.selector).Some? {
      TargetIsQuery(made, c.selector);
      NoEdit(made, Target(made, c.selector).value);
      EditLength(OperationOf(c.operation), made, Target(made, c.selector).value, c.newContent);
    }
    EditLength(OperationOf(c.operation), content, r, c.newContent);
    if OperationOf(c.operation) == ReplaceBlock && Target(made, c.selector).Some? {
      SameBlock(made, Target(made, c.selector).value, c.newContent);
    }
  }

  lemma NoEdit(content: string, r: Range)
    requires r.start <= r.end <= |content|
    ensures content[..r.start] + content[r.start..r.end] + content[r.end..] == content
    ensures content[..r.start] + "" + content[r.start..] == content && content[..r.end] + "" + content[r.end..] == content
  {
  }

  lemma EditLength(op: Operation, content: string, r: Range, text: string)
    requires r.start <= r.end <= |content| && EditAt(op, content, r, text).Some?
    ensures op == InsertBefore || op == InsertAfter ==> |EditAt(op, content, r, text).value| == |content| + |text|
    ensures op == DeleteBlock ==> |EditAt(op, content, r, text).value| == |content| - (r.end - r.start)
    ensures op == ReplaceBlock ==> |EditAt(op, content, r, text).value| == |content| - (r.end - r.start) + |text|
  {
  }

  lemma SameBlock(content: string, r: Range, text: string)
    requires r.start <= r.end <= |content|
    ensures content[..r.start] + text + content[r.end..] == content <==> text == content[r.start..r.end]
  {
    var next := content[..r.start] + text + content[r.end..];
    if next == content && |text| == r.end - r.start {
      assert next[r.start..r.end] == text;
    }
    NoEdit(content, r);
  }

  lemma JoinedIsOne(a: seq<string>, b: seq<string>, trailing: bool)
    requires CleanDocLines(a) && CleanDocLines(b) && a != [] && b != []
    ensures JoinLines(a, trailing) == JoinLines(b, trailing) <==> a == b
  {
    hide Joined, Pieces;
    PiecesJoined(a);
    PiecesJoined(b);
    if trailing {
      assert (Joined(a) + "\n")[..|Joined(a)|] == Joined(a) && (Joined(b) + "\n")[..|Joined(b)|] == Joined(b);
    }
  }

  /** The text a replaced range leaves holds no carriage return, and its own lines joined are it. */
  lemma RangeMade(c: StagedChange, content: string)
    requires OperationOf(c.operation) == ReplaceRange && Apply(c, content).Some?
    ensures var made := Apply(c, content).value;
            '\r' !in made && JoinLines(DocLines(made), EndsLine(made)) == made &&
            (EndsLine(c.newContent) ==> EndsLine(made))
  {
    hide DocLines, OperationOf, Joined, StripCR;
    DocLinesClean(content);
    DocLinesClean(c.newContent);
    var want, made := SplicedLines(c, DocLines(content)), Apply(c, content).value;
    JoinedClean(want);
    StripCROfClean(made);
    JoinOfSplit(made);
    if EndsLine(c.newContent) { SomeLine(c.newContent); }
  }

  lemma SomeLine(content: string)
    requires EndsLine(content)
    ensures DocLines(content) != []
  {
    hide StripCR;
    StripEnds(content);
    var s := StripCR(content);
    assert s == s[..|s| - 1] + "\n";
    PiecesChar(s[..|s| - 1], '\n');
  }

  /** The lines it splits into: those it was made of, less an empty last one left open. */
  lemma RangeMadeLines(c: StagedChange, content: string)
    requires OperationOf(c.operation) == ReplaceRange && Apply(c, content).Some?
    ensures var want, lines := SplicedLines(c, DocLines(content)), DocLines(Apply(c, content).value);
            |lines| <= |want| && lines == want[..|lines|]
  {
    hide DocLines, OperationOf, Joined, StripCR, Pieces;
    DocLinesClean(content);
    DocLinesClean(c.newContent);
    var want, made := SplicedLines(c, DocLines(content)), Apply(c, content).value;
    var trailing := EndsLine(content) || EndsLine(c.newContent);
    SplitOfJoin(want, trailing);
    if DocLines(made) != want {
      OpenLine(want);
    }
  }

  lemma OpenLine(want: seq<string>)
    requires CleanDocLines(want) && want != [] && want[|want| - 1] == []
    ensures DocLines(Joined(want)) == want[..|want| - 1]
  {
    hide Joined, StripCR, Pieces;
    var text := Joined(want);
    JoinedClean(want);
    StripCROfClean(text);
    PiecesJoined(want);
    LastPiece(text);
  }

  lemma RangeTwice(c: StagedChange, content: string)
    requires OperationOf(c.operation) == ReplaceRange && Apply(c, content).Some?
    ensures var made := Apply(c, content).value; Apply(c, made) == Some(made) <==> Settles(c, made)
  {
    hide DocLines, OperationOf, JoinLines;
    var made := Apply(c, content).value;
    var lines, n := DocLines(made), DocLines(c.newContent);
    RangeMade(c, content);
    RangeMadeLines(c, content);
    if ValidRange(c, lines) {
      DocLinesClean(made);
      DocLinesClean(c.newContent);
      var again := SplicedLines(c, lines);
      assert again == lines <==> lines[c.lineStart - 1..c.lineEnd] == n by { SplicedSame(c, lines); }
      if again == [] {
        AllLinesGone(made);
      } else {
        JoinedIsOne(again, lines, EndsLine(made));
      }
    }
  }

  lemma SplicedSame(c: StagedChange, lines: seq<string>)
    requires ValidRange(c, lines)
    ensures SplicedLines(c, lines) == lines <==> lines[c.lineStart - 1..c.lineEnd] == DocLines(c.newContent)
  {
    hide DocLines;
    var n := DocLines(c.newContent);
    var again := SplicedLines(c, lines);
    if again == lines {
      assert |n| == c.lineEnd - c.lineStart + 1;
      assert again[c.lineStart - 1..c.lineEnd] == n;
    } else {
      assert lines == lines[..c.lineStart - 1] + lines[c.lineStart - 1..c.lineEnd] + lines[c.lineEnd..];
    }
  }

  lemma AllLinesGone(made: string)
    ensures DocLines(made) != [] ==> JoinLines([], EndsLine(made)) != made
  {
    hide Pieces, StripCR;
    StripNil();
    PiecesNil();
  }

  /** For every change that can be made: making it again on the result leaves the result exactly when
      the change settles. */
  lemma AppliedTwice(c: StagedChange, content: string)
    requires Apply(c, content).Some?
    ensures var made := Apply(c, content).value; Apply(c, made) == Some(made) <==> Settles(c, made)
  {
    hide OperationOf, DocLines, Target, Settles;
    if OperationOf(c.operation) == ReplaceContent {
      WholeFileSettles(c, content);
      WholeFileSettles(c, c.newContent);
    } else if OperationOf(c.operation) == ReplaceRange {
      RangeTwice(c, content);
    } else {
      BlockTwice(c, content);
    }
  }

  lemma WholeFileSettles(c: StagedChange, content: string)
    requires OperationOf(c.operation) == ReplaceContent
    ensures Settles(c, content) && Apply(c, content) == Some(c.newContent)
  {
  }
}

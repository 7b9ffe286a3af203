/** Markdown sections: finding, replacing, inserting and upserting them (structure_adapters.cpp). */
module Markdown {
  import opened Text
  import opened TextLines

  // ----- Lines ---------------------------------------------------------------------------

  /** The end of the line that starts at `i`: its newline, or the end of the text. */
  function LineStop(text: string, i: nat): (j: nat)
    requires i <= |text|
    ensures i <= j <= |text|
    ensures j < |text| ==> text[j] == '\n'
    decreases |text| - i
  {
    if i < |text| && text[i] != '\n' then LineStop(text, i + 1) else i
  }

  function NextLine(text: string, i: nat): (j: nat)
    requires i < |text|
    ensures i < j <= |text|
  {
    if LineStop(text, i) < |text| then LineStop(text, i) + 1 else |text|
  }

  function LineAt(text: string, i: nat): string
    requires i < |text|
  {
    text[i..LineStop(text, i)]
  }

  datatype MarkdownLine = MarkdownLine(text: string, start: nat, end: nat)

  /** The lines from `i` on; a text that ends in a newline has an empty line behind it. */
  function LinesFrom(text: string, i: nat): (lines: seq<MarkdownLine>)
    requires i <= |text|
    decreases |text| - i
  {
    if i < |text| then [MarkdownLine(LineAt(text, i), i, NextLine(text, i))] + LinesFrom(text, NextLine(text, i))
    else if EndsLine(text) then [MarkdownLine("", |text|, |text|)]
    else []
  }

  /** A line's span holds its text and its newline, if it has one. */
  predicate Spans(text: string, l: MarkdownLine)
  {
    l.start <= l.end <= |text| &&
    (text[l.start..l.end] == l.text || text[l.start..l.end] == l.text + "\n")
  }

  lemma FirstSpan(text: string, i: nat)
    requires i < |text|
    ensures Spans(text, MarkdownLine(LineAt(text, i), i, NextLine(text, i)))
  {
    assert LineStop(text, i) < |text| ==> text[i..NextLine(text, i)] == LineAt(text, i) + "\n";
  }

  lemma LastSpan(text: string)
    ensures Spans(text, MarkdownLine("", |text|, |text|))
  {
  }

  /** The spans of the lines tile the text, and each holds its line, up to its newline. */
  lemma {:induction false} LinesTile(text: string, i: nat)
    requires i <= |text|
    ensures var lines := LinesFrom(text, i);
            (if lines == [] then i == |text| else lines[0].start == i && lines[|lines| - 1].end == |text|) &&
            (forall k :: 0 <= k < |lines| - 1 ==> lines[k].end == lines[k + 1].start) &&
            forall k :: 0 <= k < |lines| ==> Spans(text, lines[k])
    decreases |text| - i
  {
    hide Spans, LineAt, NextLine;
    LastSpan(text);
    if i < |text| {
      FirstSpan(text, i);
      LinesTile(text, NextLine(text, i));
    }
  }

  // ----- Sections ------------------------------------------------------------------------

  function HashRun(s: string, i: nat): (j: nat)
    requires i <= |s|
    ensures i <= j <= |s|
    decreases |s| - i
  {
    if i < |s| && s[i] == '#' then HashRun(s, i + 1) else i
  }

  /** A heading that ends a section of the given level. */
  predicate Closes(line: string, level: nat)
  {
    var t := Trim(line);
    t != [] && t[0] == '#' &&
    var hashes := HashRun(t, 0);
    hashes <= level && hashes > 0 && hashes < |t| && t[hashes] == ' '
  }

  function Hashes(level: nat): string { seq(level, _ => '#') }

  function Needle(heading: string, level: nat): string { Hashes(level) + " " + heading }

  datatype Section = Section(start: nat, bodyStart: nat, end: nat)

  /** Where the section ends whose body starts at `i`. */
  function CloseFrom(text: string, i: nat, level: nat): (e: nat)
    requires i <= |text|
    ensures i <= e <= |text|
    decreases |text| - i
  {
    if i == |text| || Closes(LineAt(text, i), level) then i else CloseFrom(text, NextLine(text, i), level)
  }

  function SectionFrom(text: string, i: nat, needle: string, level: nat): (r: Option<Section>)
    requires i <= |text|
    ensures r.Some? ==> i <= r.value.start < r.value.bodyStart <= r.value.end <= |text|
    decreases |text| - i
  {
    if i == |text| then None
    else if Trim(LineAt(text, i)) == needle then
      Some(Section(i, NextLine(text, i), CloseFrom(text, NextLine(text, i), level)))
    else SectionFrom(text, NextLine(text, i), needle, level)
  }

  /** find_markdown_section_range */
  function FindSection(content: string, heading: string, level: nat): Option<Section>
  {
    SectionFrom(content, 0, Needle(heading, level), level)
  }

  /** markdown_normalize_body */
  function Normalized(body: string): string
  {
    if body != [] && !EndsLine(body) then body + "\n" else body
  }

  // ----- The edits -----------------------------------------------------------------------

  /** markdown_replace_section; None when the heading is not found */
  function ReplaceSection(content: string, heading: string, level: nat, body: string): Option<string>
  {
    match FindSection(content, heading, level)
    case None => None
    case Some(s) => Some(content[..s.bodyStart] + Normalized(body) + content[s.end..])
  }

  /** markdown_insert_after_heading */
  function InsertAfterHeading(content: string, heading: string, level: nat, body: string): Option<string>
  {
    match FindSection(content, heading, level)
    case None => None
    case Some(s) => Some(content[..s.bodyStart] + Normalized(body) + content[s.bodyStart..])
  }

  function Terminated(content: string): string
  {
    if content != [] && !EndsLine(content) then content + "\n" else content
  }

  /** markdown_upsert_section */
  function UpsertSection(content: string, heading: string, level: nat, body: string): string
  {
    match ReplaceSection(content, heading, level, body)
    case Some(next) => next
    case None => Terminated(content) + (Needle(heading, level) + "\n") + Normalized(body)
  }

  // ----- Texts made of whole lines -------------------------------------------------------

  predicate Whole(text: string) { text == [] || EndsLine(text) }

  lemma {:induction false} StopInFront(p: string, r: string, i: nat)
    requires Whole(p) && i < |p|
    ensures LineStop(p, i) < |p| && LineStop(p + r, i) == LineStop(p, i)
    decreases |p| - i
  {
    if p[i] != '\n' { StopInFront(p, r, i + 1); }
  }

  lemma {:induction false} StopBehind(p: string, r: string, i: nat)
    requires i <= |r|
    ensures LineStop(p + r, |p| + i) == |p| + LineStop(r, i)
    decreases |r| - i
  {
    if i < |r| && r[i] != '\n' { StopBehind(p, r, i + 1); }
  }

  lemma LineInFront(p: string, r: string, i: nat)
    requires Whole(p) && i < |p|
    ensures LineAt(p + r, i) == LineAt(p, i) && NextLine(p + r, i) == NextLine(p, i)
  {
    StopInFront(p, r, i);
  }

  lemma LineBehind(p: string, r: string, i: nat)
    requires i < |r|
    ensures LineAt(p + r, |p| + i) == LineAt(r, i) && NextLine(p + r, |p| + i) == |p| + NextLine(r, i)
  {
    StopBehind(p, r, i);
  }

  lemma {:induction false} CloseBehind(p: string, r: string, i: nat, level: nat)
    requires i <= |r|
    ensures CloseFrom(p + r, |p| + i, level) == |p| + CloseFrom(r, i, level)
    decreases |r| - i
  {
    hide LineAt, NextLine, Closes;
    if i < |r| {
      LineBehind(p, r, i);
      if !Closes(LineAt(r, i), level) { CloseBehind(p, r, NextLine(r, i), level); }
    }
  }

  lemma {:induction false} CloseInFront(p: string, r: string, i: nat, level: nat)
    requires Whole(p) && i <= |p|
    ensures CloseFrom(p + r, i, level) ==
            if CloseFrom(p, i, level) < |p| then CloseFrom(p, i, level) else |p| + CloseFrom(r, 0, level)
    decreases |p| - i
  {
    hide LineAt, NextLine, Closes;
    if i < |p| {
      LineInFront(p, r, i);
      if !Closes(LineAt(p, i), level) { CloseInFront(p, r, NextLine(p, i), level); }
    } else {
      CloseBehind(p, r, 0, level);
    }
  }

  lemma {:induction false} CloseStays(text: string, i: nat, level: nat)
    requires i <= |text|
    ensures var e := CloseFrom(text, i, level); CloseFrom(text, e, level) == e
    decreases |text| - i
  {
    if i < |text| && !Closes(LineAt(text, i), level) { CloseStays(text, NextLine(text, i), level); }
  }

  /** A section begins in whole lines as it does in front of anything. */
  lemma {:induction false} SectionInFront(p: string, r: string, i: nat, needle: string, level: nat)
    requires Whole(p) && i <= |p|
    ensures var s, t := SectionFrom(p, i, needle, level), SectionFrom(p + r, i, needle, level);
            (s.Some? ==> t.Some? && t.value.start == s.value.start && t.value.bodyStart == s.value.bodyStart &&
                         t.value.end == CloseFrom(p + r, s.value.bodyStart, level)) &&
            (s.None? ==> t == SectionFrom(p + r, |p|, needle, level))
    decreases |p| - i
  {
    hide LineAt, NextLine, CloseFrom, Trim;
    if i < |p| {
      LineInFront(p, r, i);
      if Trim(LineAt(p, i)) != needle { SectionInFront(p, r, NextLine(p, i), needle, level); }
    }
  }

  lemma {:induction false} SectionBehind(p: string, r: string, i: nat, needle: string, level: nat)
    requires i <= |r|
    ensures var s := SectionFrom(r, i, needle, level);
            SectionFrom(p + r, |p| + i, needle, level) ==
            if s.None? then None
            else Some(Section(|p| + s.value.start, |p| + s.value.bodyStart, |p| + s.value.end))
    decreases |r| - i
  {
    hide LineAt, NextLine, Trim, CloseFrom;
    if i < |r| {
      LineBehind(p, r, i);
      if Trim(LineAt(r, i)) != needle {
        SectionBehind(p, r, NextLine(r, i), needle, level);
      } else {
        CloseBehind(p, r, NextLine(r, i), level);
      }
    }
  }

  // ----- Finding a section again ---------------------------------------------------------

  /** The heading line ends in a newline. */
  predicate HeadingTerminated(content: string, s: Section)
    requires 0 < s.bodyStart <= |content|
  {
    content[s.bodyStart - 1] == '\n'
  }

  /** No line of the body ends a section of this level. */
  predicate StaysInside(body: string, level: nat)
  {
    CloseFrom(Normalized(body), 0, level) == |Normalized(body)|
  }

  /** The text up to the end of the heading line holds the section already. */
  lemma {:induction false} HeadingPart(content: string, i: nat, needle: string, level: nat)
    requires i <= |content| && SectionFrom(content, i, needle, level).Some?
    requires var s := SectionFrom(content, i, needle, level).value; HeadingTerminated(content, s)
    ensures var s := SectionFrom(content, i, needle, level).value;
            SectionFrom(content[..s.bodyStart], i, needle, level) == Some(Section(s.start, s.bodyStart, s.bodyStart)) &&
            s.end == CloseFrom(content, s.bodyStart, level)
    decreases |content| - i
  {
    hide LineAt, NextLine, Trim, CloseFrom;
    var s := SectionFrom(content, i, needle, level).value;
    var p, r := content[..s.bodyStart], content[s.bodyStart..];
    assert content == p + r;
    LineInFront(p, r, i);
    if Trim(LineAt(content, i)) != needle {
      HeadingPart(content, NextLine(content, i), needle, level);
    } else {
      CloseAtEnd(p, level);
    }
  }

  lemma CloseAtEnd(text: string, level: nat)
    ensures CloseFrom(text, |text|, level) == |text|
  {
  }

  /** A text whose heading part holds the section, with any body behind it. */
  lemma HeadedBy(p: string, r: string, needle: string, level: nat, s: Section)
    requires Whole(p) && SectionFrom(p, 0, needle, level) == Some(s) && s.bodyStart == |p|
    ensures SectionFrom(p + r, 0, needle, level) == Some(Section(s.start, |p|, |p| + CloseFrom(r, 0, level)))
  {
    hide SectionFrom, CloseFrom;
    SectionInFront(p, r, 0, needle, level);
    CloseBehind(p, r, 0, level);
  }

  /** The rest of a text from where a section ends starts with what ends it. */
  lemma CloseOfRest(r: string, level: nat)
    ensures var e := CloseFrom(r, 0, level); CloseFrom(r[e..], 0, level) == 0
  {
    hide CloseFrom;
    var e := CloseFrom(r, 0, level);
    CloseStays(r, 0, level);
    assert r == r[..e] + r[e..];
    CloseBehind(r[..e], r[e..], 0, level);
  }

  lemma NormalizedIsWhole(body: string)
    ensures Whole(Normalized(body))
  {
  }

  /** Replacing the body of a section whose heading line ends in a newline leaves everything before
      the body and from the section's end alone; the heading is then found at the same place, with
      the new body as its body up to the first line of it that ends the section. */
  lemma ReplaceThenFind(content: string, heading: string, level: nat, body: string)
    requires FindSection(content, heading, level).Some?
    requires HeadingTerminated(content, FindSection(content, heading, level).value)
    ensures var s, next, n := FindSection(content, heading, level).value, ReplaceSection(content, heading, level, body).value, Normalized(body);
            next[..s.bodyStart] == content[..s.bodyStart] && next[s.bodyStart + |n|..] == content[s.end..] &&
            FindSection(next, heading, level) == Some(Section(s.start, s.bodyStart, s.bodyStart + CloseFrom(n, 0, level)))
  {
    hide SectionFrom, CloseFrom, Needle, Normalized;
    var needle := Needle(heading, level);
    var s, n := FindSection(content, heading, level).value, Normalized(body);
    var a, r := content[..s.bodyStart], content[s.bodyStart..];
    HeadingPart(content, 0, needle, level);
    assert content == a + r;
    HeadedBy(a, r, needle, level, Section(s.start, s.bodyStart, s.bodyStart));
    var e := CloseFrom(r, 0, level);
    assert content[s.end..] == r[e..];
    CloseOfRest(r, level);
    NormalizedIsWhole(body);
    CloseInFront(n, r[e..], 0, level);
    HeadedBy(a, n + r[e..], needle, level, Section(s.start, s.bodyStart, s.bodyStart));
    assert a + n + r[e..] == a + (n + r[e..]);
  }

  /** Text inserted behind a heading comes in front of the old body; the section is found at the same
      place, ending where it did, or at the first inserted line that ends it. */
  lemma InsertThenFind(content: string, heading: string, level: nat, body: string)
    requires FindSection(content, heading, level).Some?
    requires HeadingTerminated(content, FindSection(content, heading, level).value)
    ensures var s, next, n := FindSection(content, heading, level).value, InsertAfterHeading(content, heading, level, body).value, Normalized(body);
            next[..s.bodyStart] == content[..s.bodyStart] && next[s.bodyStart + |n|..] == content[s.bodyStart..] &&
            FindSection(next, heading, level) ==
              Some(Section(s.start, s.bodyStart,
                           if StaysInside(body, level) then s.end + |n| else s.bodyStart + CloseFrom(n, 0, level)))
  {
    hide SectionFrom, CloseFrom, Needle, Normalized;
    var needle := Needle(heading, level);
    var s, n := FindSection(content, heading, level).value, Normalized(body);
    var a, r := content[..s.bodyStart], content[s.bodyStart..];
    HeadingPart(content, 0, needle, level);
    assert content == a + r;
    HeadedBy(a, r, needle, level, Section(s.start, s.bodyStart, s.bodyStart));
    NormalizedIsWhole(body);
    CloseInFront(n, r, 0, level);
    HeadedBy(a, n + r, needle, level, Section(s.start, s.bodyStart, s.bodyStart));
    assert a + n + r == a + (n + r);
  }

  // ----- Upserting twice -----------------------------------------------------------------

  /** The heading can be found at all: its line survives trimming and is one line. */
  predicate Findable(heading: string, level: nat)
  {
    var needle := Needle(heading, level); Trim(needle) == needle && OneLine(needle)
  }

  lemma {:induction false} StopOfLine(line: string, r: string, i: nat)
    requires OneLine(line) && i <= |line|
    ensures LineStop(line + "\n" + r, i) == |line|
    decreases |line| - i
  {
    if i < |line| {
      assert line[i] in line;
      StopOfLine(line, r, i + 1);
    }
  }

  lemma FirstLine(line: string, r: string)
    requires OneLine(line)
    ensures LineAt(line + "\n" + r, 0) == line && NextLine(line + "\n" + r, 0) == |line| + 1
  {
    StopOfLine(line, r, 0);
  }

  lemma {:induction false} LineIsOne(text: string, i: nat)
    requires i < |text|
    ensures OneLine(LineAt(text, i))
    decreases |text| - i
  {
    if text[i] == '\n' {
      assert LineAt(text, i) == [];
    } else if i + 1 == |text| {
      assert LineAt(text, i) == [text[i]];
    } else {
      LineIsOne(text, i + 1);
      assert LineAt(text, i) == [text[i]] + LineAt(text, i + 1);
    }
  }

  lemma TrimIsOneLine(s: string)
    requires OneLine(s)
    ensures OneLine(Trim(s)) && Trim(Trim(s)) == Trim(s)
  {
    TrimOfTrimmed(Trim(s));
  }

  /** A heading that cannot be found is not found in any text. */
  lemma {:induction false} NeverFound(text: string, i: nat, heading: string, level: nat)
    requires i <= |text| && !Findable(heading, level)
    ensures SectionFrom(text, i, Needle(heading, level), level).None?
    decreases |text| - i
  {
    hide Needle, Trim, LineAt, NextLine;
    if i < |text| {
      LineIsOne(text, i);
      TrimIsOneLine(LineAt(text, i));
      NeverFound(text, NextLine(text, i), heading, level);
    }
  }

  lemma HeadingFound(heading: string, level: nat)
    requires Findable(heading, level)
    ensures var h, needle := Needle(heading, level) + "\n", Needle(heading, level);
            SectionFrom(h, 0, needle, level) == Some(Section(0, |h|, |h|))
  {
    hide Needle, Trim;
    var needle := Needle(heading, level);
    FirstLine(needle, []);
    assert needle + "\n" + [] == needle + "\n";
    CloseAtEnd(needle + "\n", level);
  }

  lemma {:induction false} TerminatedSame(content: string, i: nat, needle: string, level: nat)
    requires i < |content| && SectionFrom(content, i, needle, level).None? && !Whole(content)
    ensures SectionFrom(content + "\n", i, needle, level).None?
    decreases |content| - i
  {
    hide Trim;
    var next := content + "\n";
    StopWithNewline(content, i);
    assert LineAt(next, i) == LineAt(content, i);
    if LineStop(content, i) < |content| {
      TerminatedSame(content, NextLine(content, i), needle, level);
    }
  }

  lemma {:induction false} StopWithNewline(content: string, i: nat)
    requires i <= |content|
    ensures LineStop(content + "\n", i) == LineStop(content, i)
    decreases |content| - i
  {
    if i < |content| && content[i] != '\n' { StopWithNewline(content, i + 1); }
  }

  lemma TerminatedHasNone(content: string, needle: string, level: nat)
    requires SectionFrom(content, 0, needle, level).None?
    ensures Whole(Terminated(content)) && SectionFrom(Terminated(content), 0, needle, level).None?
  {
    hide SectionFrom;
    if !Whole(content) { TerminatedSame(content, 0, needle, level); }
  }

  /** A section whose heading line has no newline ends with the text. */
  lemma {:induction false} UnterminatedEnds(content: string, i: nat, needle: string, level: nat)
    requires i <= |content| && SectionFrom(content, i, needle, level).Some?
    requires !HeadingTerminated(content, SectionFrom(content, i, needle, level).value)
    ensures var s := SectionFrom(content, i, needle, level).value; s.bodyStart == |content| == s.end
    decreases |content| - i
  {
    hide Trim, LineAt, CloseFrom;
    CloseAtEnd(content, level);
    if LineStop(content, i) < |content| && Trim(LineAt(content, i)) != needle {
      UnterminatedEnds(content, NextLine(content, i), needle, level);
    }
  }

  /** Behind an unterminated heading, whatever is found has its body behind the old text. */
  lemma {:induction false} LateBody(content: string, n: string, i: nat, needle: string, level: nat)
    requires i <= |content| && n != []
    requires SectionFrom(content, i, needle, level).Some?
    requires !HeadingTerminated(content, SectionFrom(content, i, needle, level).value)
    ensures var t := SectionFrom(content + n, i, needle, level); t.Some? ==> t.value.bodyStart > |content|
    decreases |content| - i
  {
    hide Trim, CloseFrom, LineAt, NextLine;
    var next := content + n;
    LineStays(content, n, i);
    if LineStop(content, i) < |content| {
      if Trim(LineAt(content, i)) != needle {
        LateBody(content, n, NextLine(content, i), needle, level);
      } else {
        NewlineBehind(content, i);
      }
    } else {
      LaterStart(next, NextLine(next, i), needle, level);
    }
  }

  lemma LineStays(p: string, n: string, i: nat)
    requires i < |p| && n != []
    ensures LineStop(p, i) < |p| ==> LineAt(p + n, i) == LineAt(p, i) && NextLine(p + n, i) == NextLine(p, i)
    ensures LineStop(p, i) == |p| ==> NextLine(p + n, i) > |p|
  {
    StopLater(p, n, i);
  }

  lemma NewlineBehind(content: string, i: nat)
    requires i < |content| && LineStop(content, i) < |content|
    ensures content[NextLine(content, i) - 1] == '\n'
  {
  }

  lemma LaterStart(text: string, i: nat, needle: string, level: nat)
    requires i <= |text|
    ensures var t := SectionFrom(text, i, needle, level); t.Some? ==> t.value.start >= i && t.value.bodyStart > i
  {
    hide SectionFrom;
  }

  lemma {:induction false} StopLater(p: string, n: string, i: nat)
    requires i <= |p|
    ensures LineStop(p, i) < |p| ==> LineStop(p + n, i) == LineStop(p, i)
    ensures LineStop(p, i) == |p| ==> LineStop(p + n, i) >= |p|
    decreases |p| - i
  {
    if i < |p| && p[i] != '\n' { StopLater(p, n, i + 1); }
  }

  lemma UpsertAt(x: string, heading: string, level: nat, body: string)
    ensures var f, twice, n := FindSection(x, heading, level), UpsertSection(x, heading, level, body), Normalized(body);
            if f.None? then |twice| > |x|
            else |twice| == |x| - (f.value.end - f.value.bodyStart) + |n| &&
                 (f.value.end == f.value.bodyStart + |n| && x[f.value.bodyStart..f.value.end] == n ==> twice == x)
  {
    hide SectionFrom, Normalized;
    var f, n := FindSection(x, heading, level), Normalized(body);
    if f.Some? && x[f.value.bodyStart..f.value.end] == n {
      assert x == x[..f.value.bodyStart] + n + x[f.value.end..];
    }
  }

  /** Where the upserted heading is found, unless it was the unterminated end of the text. */
  lemma UpsertThenFind(content: string, heading: string, level: nat, body: string)
    requires var f := FindSection(content, heading, level);
             if f.Some? then HeadingTerminated(content, f.value) else Findable(heading, level)
    ensures var once, n := UpsertSection(content, heading, level, body), Normalized(body);
            var g := FindSection(once, heading, level);
            g.Some? && g.value.end == g.value.bodyStart + CloseFrom(n, 0, level) &&
            g.value.bodyStart + |n| <= |once| && once[g.value.bodyStart..g.value.bodyStart + |n|] == n
  {
    hide SectionFrom, CloseFrom, Needle, Normalized, Findable;
    var f, needle, n := FindSection(content, heading, level), Needle(heading, level), Normalized(body);
    var once := UpsertSection(content, heading, level, body);
    if f.Some? {
      ReplaceThenFind(content, heading, level, body);
      assert once == content[..f.value.bodyStart] + n + content[f.value.end..];
    } else {
      var p, h := Terminated(content), needle + "\n";
      TerminatedHasNone(content, needle, level);
      HeadingFound(heading, level);
      assert Whole(h);
      HeadedBy(h, n, needle, level, Section(0, |h|, |h|));
      SectionInFront(p, h + n, 0, needle, level);
      SectionBehind(p, h + n, 0, needle, level);
      assert once == p + (h + n);
    }
  }

  /** Upserting a section twice is upserting it once, exactly when no line of the body ends the
      section and the heading is either found with a newline behind it, or not found although it
      could be, or found at the very end with nothing to put behind it. */
  lemma UpsertIsIdempotent(content: string, heading: string, level: nat, body: string)
    ensures var once, f := UpsertSection(content, heading, level, body), FindSection(content, heading, level);
            UpsertSection(once, heading, level, body) == once <==>
            StaysInside(body, level) &&
            (if f.Some? then HeadingTerminated(content, f.value) || body == "" else Findable(heading, level))
  {
    hide SectionFrom, CloseFrom, Needle, Findable, HeadingTerminated;
    var once, f, n := UpsertSection(content, heading, level, body), FindSection(content, heading, level), Normalized(body);
    UpsertAt(once, heading, level, body);
    if f.Some? && !HeadingTerminated(content, f.value) {
      Glued(content, heading, level, body);
    } else if f.None? && !Findable(heading, level) {
      NeverFound(once, 0, heading, level);
    } else {
      UpsertThenFind(content, heading, level, body);
    }
  }

  lemma Glued(content: string, heading: string, level: nat, body: string)
    requires FindSection(content, heading, level).Some?
    requires !HeadingTerminated(content, FindSection(content, heading, level).value)
    ensures var once := UpsertSection(content, heading, level, body);
            UpsertSection(once, heading, level, body) == once <==> body == ""
    ensures body == "" ==> StaysInside(body, level)
  {
    hide SectionFrom, Needle, HeadingTerminated;
    var f, n, needle := FindSection(content, heading, level), Normalized(body), Needle(heading, level);
    var once := UpsertSection(content, heading, level, body);
    NormalizedIsWhole(body);
    UnterminatedEnds(content, 0, needle, level);
    assert content[|content|..] == [] && content[..|content|] == content;
    if body == "" {
      assert n == [] && once == content;
    } else {
      assert once == content + n;
      LateBody(content, n, 0, needle, level);
      UpsertAt(once, heading, level, body);
    }
  }

  // ----- The loops -----------------------------------------------------------------------

  /** markdown_lines */
  method MarkdownLines(text: string) returns (lines: seq<MarkdownLine>)
    ensures lines == LinesFrom(text, 0)
  {
    hide LinesFrom, LineStop;
    lines := [];
    var start := 0;
    LinesNothing(text);
    for i := 0 to |text|
      invariant start <= i && LineStop(text, start) >= i
      invariant start < |text| || EndsLine(text) || text == []
      invariant lines + LinesFrom(text, start) == LinesFrom(text, 0)
    {
      StopStep(text, start, i);
      if text[i] == '\n' {
        LinesStep(text, start);
        lines := lines + [MarkdownLine(text[start..i], start, i + 1)];
        start := i + 1;
        StopBounds(text, start);
      }
    }
    StopBounds(text, start);
    LinesStep(text, start);
    LinesStep(text, |text|);
    if start < |text| {
      NoLastNewline(text, start);
      var last := MarkdownLine(text[start..], start, |text|);
      assert text[start..] == text[start..|text|] && [last] + [] == [last];
      lines := lines + [last];
    } else if text != [] {
      lines := lines + [MarkdownLine("", |text|, |text|)];
    } else {
      assert lines + [] == lines;
    }
  }

  lemma LinesNothing(text: string)
    ensures [] + LinesFrom(text, 0) == LinesFrom(text, 0)
  {
  }

  lemma StopBounds(text: string, start: nat)
    requires start <= |text|
    ensures start <= LineStop(text, start) <= |text|
  {
  }

  lemma {:induction false} StopStep(text: string, start: nat, i: nat)
    requires start <= i < |text| && LineStop(text, start) >= i
    ensures if text[i] == '\n' then LineStop(text, start) == i else LineStop(text, start) >= i + 1
    decreases i - start
  {
    if start < i { StopStep(text, start + 1, i); }
  }

  lemma LinesStep(text: string, start: nat)
    requires start <= |text|
    ensures start < |text| ==>
              LinesFrom(text, start) ==
              [MarkdownLine(text[start..LineStop(text, start)], start, NextLine(text, start))] + LinesFrom(text, NextLine(text, start))
    ensures start == |text| ==> LinesFrom(text, start) == if EndsLine(text) then [MarkdownLine("", |text|, |text|)] else []
  {
  }

  lemma {:induction false} NoLastNewline(text: string, start: nat)
    requires start < |text| && LineStop(text, start) == |text|
    ensures !EndsLine(text)
    decreases |text| - start
  {
    if start + 1 < |text| { NoLastNewline(text, start + 1); }
  }

  /** The loop that asks whether a line ends a section. */
  method EndsSection(line: string, level: nat) returns (r: bool)
    ensures r == Closes(line, level)
  {
    hide Trim;
    var trimmed := TrimCopy(line);
    if trimmed == [] || trimmed[0] != '#' { return false; }
    var hashes := 0;
    while hashes < |trimmed| && trimmed[hashes] == '#'
      invariant hashes <= |trimmed| && HashRun(trimmed, 0) == HashRun(trimmed, hashes)
    {
      hashes := hashes + 1;
    }
    return hashes <= level && hashes > 0 && hashes < |trimmed| && trimmed[hashes] == ' ';
  }

  /** The k-th line, where the lines from it on are those of the text from its start on. */
  ghost predicate Aligned(content: string, lines: seq<MarkdownLine>, k: nat)
  {
    k <= |lines| && (k < |lines| ==> lines[k].start <= |content| && lines[k..] == LinesFrom(content, lines[k].start))
  }

  lemma NextAligned(content: string, lines: seq<MarkdownLine>, k: nat)
    requires k < |lines| && Aligned(content, lines, k)
    ensures Aligned(content, lines, k + 1)
    ensures var l := lines[k];
            if l.start < |content| then
              l.text == LineAt(content, l.start) && l.end == NextLine(content, l.start) &&
              (if k + 1 < |lines| then lines[k + 1].start == l.end else l.end == |content|)
            else l.text == "" && l.end == |content| && k + 1 == |lines|
  {
    hide LineAt, NextLine;
    var rest := lines[k..];
    assert rest[1..] == lines[k + 1..];
    assert rest[0] == lines[k];
    if k + 1 < |lines| { assert rest[1] == lines[k + 1]; }
    if lines[k].start < |content| {
      FirstOfLines(content, NextLine(content, lines[k].start));
    }
  }

  lemma FirstOfLines(content: string, i: nat)
    requires i <= |content|
    ensures var lines := LinesFrom(content, i); if lines == [] then i == |content| else lines[0].start == i
  {
  }

  /** find_markdown_section_range */
  method FindSectionRange(content: string, heading: string, level: nat) returns (r: Option<Section>)
    ensures r == FindSection(content, heading, level)
  {
    hide LinesFrom, LineAt, NextLine, Closes, Trim;
    var lines := MarkdownLines(content);
    var needle := Needle(heading, level);
    FirstOfLines(content, 0);
    assert lines[0..] == lines;
    for i := 0 to |lines|
      invariant Aligned(content, lines, i)
      invariant FindSection(content, heading, level) ==
                if i < |lines| then SectionFrom(content, lines[i].start, needle, level) else None
    {
      NextAligned(content, lines, i);
      var trimmed := TrimCopy(lines[i].text);
      TrimNothing();
      if trimmed == needle {
        var end := SectionEnd(content, lines, i + 1, level);
        return Some(Section(lines[i].start, lines[i].end, end));
      }
    }
    return None;
  }

  lemma TrimNothing()
    ensures Trim("") == ""
  {
  }

  /** The inner loop: the section ends at the first later line that closes it. */
  method SectionEnd(content: string, lines: seq<MarkdownLine>, k: nat, level: nat) returns (end: nat)
    requires Aligned(content, lines, k)
    ensures end == if k < |lines| then CloseFrom(content, lines[k].start, level) else |content|
  {
    hide LinesFrom, LineAt, NextLine, Closes;
    for j := k to |lines|
      invariant Aligned(content, lines, j)
      invariant k < |lines| ==>
                  CloseFrom(content, lines[k].start, level) ==
                  if j < |lines| then CloseFrom(content, lines[j].start, level) else |content|
    {
      NextAligned(content, lines, j);
      NothingCloses(level);
      var closes := EndsSection(lines[j].text, level);
      if closes { return lines[j].start; }
    }
    return |content|;
  }

  lemma NothingCloses(level: nat)
    ensures !Closes("", level)
  {
  }

  /** A heading that swallows its body: it is the last line and has no newline. */
  lemma HeadingGlued()
    ensures FindSection("# H", "H", 1) == Some(Section(0, 3, 3))
    ensures UpsertSection("# H", "H", 1, "x") == "# Hx\n"
    ensures UpsertSection("# Hx\n", "H", 1, "x") != "# Hx\n"
  {
    hide SectionFrom;
    HeadingAlone();
    UpsertIsIdempotent("# H", "H", 1, "x");
    assert "# H"[2] == 'H';
    assert "# H" + "x\n" + "" == "# Hx\n";
  }

  lemma HeadingAlone()
    ensures Needle("H", 1) == "# H" && SectionFrom("# H", 0, "# H", 1) == Some(Section(0, 3, 3))
    ensures Normalized("x") == "x\n"
  {
    hide Trim, CloseFrom;
    assert Hashes(1) == "#";
    assert "#" + " " + "H" == "# H";
    assert LineStop("# H", 3) == 3 && LineStop("# H", 2) == 3 && LineStop("# H", 1) == 3;
    assert "# H"[0..3] == "# H";
    TrimOfTrimmed("# H");
    CloseAtEnd("# H", 1);
    assert "x" + "\n" == "x\n";
  }
}

/** What the Markdown edits do to a text whose lines are known: which headings end a section, and what is
    replaced (structure_adapters.cpp: find_markdown_section_range and the edits). */
module Sections {
  import opened Text
  import opened TextLines
  import opened Markdown

  // ----- Headings ------------------------------------------------------------------------

  /** A heading of rank k: k hashes and a space, behind blanks at most, and then a title that is not blank. */
  ghost predicate Heading(line: string, k: nat)
  {
    k > 0 && exists a, title :: HeadingParts(line, k, a, title)
  }

  predicate HeadingParts(line: string, k: nat, a: string, title: string)
  {
    Blanks(a) && line == a + Hashes(k) + " " + title && !Blanks(title)
  }

  lemma {:induction false} HashRunOf(s: string, k: nat, i: nat)
    requires i <= k < |s| && s[k] != '#' && forall j :: i <= j < k ==> s[j] == '#'
    ensures HashRun(s, i) == k
    decreases k - i
  {
    if i < k { HashRunOf(s, k, i + 1); }
  }

  lemma {:induction false} HashRunIs(s: string, i: nat)
    requires i <= |s|
    ensures forall j :: i <= j < HashRun(s, i) ==> s[j] == '#'
    decreases |s| - i
  {
    if i < |s| && s[i] == '#' { HashRunIs(s, i + 1); }
  }

  /** A trimmed line in its place. */
  lemma TrimParts(line: string) returns (a: string, b: string)
    ensures line == a + Trim(line) + b && Blanks(a) && Blanks(b)
  {
    var s := SkipSpace(line, 0);
    var e := BackOver(line, s, |line|);
    a, b := line[..s], line[e..];
    SkipSpaceBlank(line, 0);
    BackOverBlank(line, s, |line|);
    BlanksAreBlank(a);
    BlanksAreBlank(b);
  }

  lemma {:induction false} BackOverBlank(text: string, lo: nat, hi: nat)
    requires lo <= hi <= |text|
    ensures forall k :: BackOver(text, lo, hi) <= k < hi ==> IsSpace(text[k])
    decreases hi
  {
    if hi > lo && IsSpace(text[hi - 1]) { BackOverBlank(text, lo, hi - 1); }
  }

  lemma TrimHeading(k: nat, a: string, title: string) returns (core: string)
    requires k > 0 && Blanks(a) && !Blanks(title)
    ensures Trim(a + Hashes(k) + " " + title) == Hashes(k) + " " + core && core != ""
  {
    hide Trim, Blanks;
    var e := BackOver(title, 0, |title|);
    BlanksAreBlank(title);
    BlanksAreBlank(a);
    BackOverBlank(title, 0, |title|);
    core := title[..e];
    HeadingTrimmed(k, core);
    assert a + (Hashes(k) + " " + core) + title[e..] == a + Hashes(k) + " " + title;
    TrimAround(a, Hashes(k) + " " + core, title[e..]);
  }

  lemma HeadingTrimmed(k: nat, core: string)
    requires k > 0 && core != [] && !IsSpace(core[|core| - 1])
    ensures Trimmed(Hashes(k) + " " + core)
  {
  }

  /** A line ends a section of a level exactly when it is a heading of that rank or a higher one: a deeper
      heading, hashes without a space behind them, and hashes alone do not. */
  lemma ClosesExactly(line: string, level: nat)
    ensures Closes(line, level) <==> exists k :: 1 <= k <= level && Heading(line, k)
  {
    hide Trim, Blanks;
    if Closes(line, level) {
      ClosingIsHeading(line, level);
    }
    if k :| 1 <= k <= level && Heading(line, k) {
      HeadingCloses(line, k, level);
    }
  }

  lemma ClosingParts(line: string, level: nat) returns (k: nat, core: string)
    requires Closes(line, level)
    ensures 1 <= k <= level && Trim(line) == Hashes(k) + " " + core && core != "" && !IsSpace(core[|core| - 1])
  {
    hide Trim;
    var t := Trim(line);
    k := HashRun(t, 0);
    core := t[k + 1..];
    HashRunIs(t, 0);
    assert t[..k] == Hashes(k);
    assert t == t[..k] + " " + core;
  }

  lemma ClosingIsHeading(line: string, level: nat)
    requires Closes(line, level)
    ensures exists k :: 1 <= k <= level && Heading(line, k)
  {
    hide Blanks, Trim, Closes, Hashes;
    var k, core := ClosingParts(line, level);
    var a, b := TrimParts(line);
    LastCounts(core, b);
    assert a + (Hashes(k) + " " + core) + b == a + Hashes(k) + " " + (core + b);
    assert line == a + (Hashes(k) + " " + core) + b;
    assert HeadingParts(line, k, a, core + b);
    assert Heading(line, k);
  }

  lemma LastCounts(s: string, b: string)
    requires s != [] && !IsSpace(s[|s| - 1])
    ensures !Blanks(s + b)
  {
    BlanksAreBlank(s + b);
    assert (s + b)[|s| - 1] == s[|s| - 1];
  }

  lemma HeadingCloses(line: string, k: nat, level: nat)
    requires 1 <= k <= level && Heading(line, k)
    ensures Closes(line, level)
  {
    hide Trim, Blanks;
    var a, title :| HeadingParts(line, k, a, title);
    var core := TrimHeading(k, a, title);
    var t := Trim(line);
    HashRunOf(t, k, 0);
  }

  /** A line has one rank at most, so a deeper heading ends nothing. */
  lemma OneRank(line: string, j: nat, k: nat)
    requires Heading(line, j) && Heading(line, k)
    ensures j == k
  {
    hide Trim, Blanks;
    var a, x :| HeadingParts(line, j, a, x);
    var b, y :| HeadingParts(line, k, b, y);
    var core := TrimHeading(j, a, x);
    var other := TrimHeading(k, b, y);
    HashRunOf(Trim(line), j, 0);
    HashRunOf(Trim(line), k, 0);
  }

  /** Hashes that are all there is, or that have something other than a space behind them, are no heading. */
  lemma NoHeading(a: string, j: nat, rest: string, k: nat)
    requires Blanks(a)
    requires Blanks(rest) || rest[0] !in {'#', ' ', '\t', '\n', '\U{0B}', '\U{0C}', '\r'}
    ensures !Heading(a + Hashes(j) + rest, k)
  {
    hide Trim;
    var line := a + Hashes(j) + rest;
    var t := TrimHashes(a, j, rest);
    if Heading(line, k) {
      var b, title :| HeadingParts(line, k, b, title);
      var core := TrimHeading(k, b, title);
      HashesAt(t, k, core, j);
    }
  }

  lemma HashesAt(t: string, k: nat, core: string, j: nat)
    requires t == Hashes(k) + " " + core
    ensures if j == k then |t| > j && t[j] == ' ' else if j < k then |t| > j && t[j] == '#' else |t| > k && t[k] == ' '
  {
  }

  lemma TrimHashes(a: string, j: nat, rest: string) returns (t: string)
    requires Blanks(a)
    requires Blanks(rest) || rest[0] !in {'#', ' ', '\t', '\n', '\U{0B}', '\U{0C}', '\r'}
    ensures t == Trim(a + Hashes(j) + rest)
    ensures |t| >= j && (forall i :: 0 <= i < j ==> t[i] == '#') && (|t| > j ==> t[j] !in {'#', ' '})
  {
    hide Trim;
    t := Trim(a + Hashes(j) + rest);
    if Blanks(rest) {
      HashesAlone(a, j, rest);
    } else {
      var core := HashesGlued(a, j, rest);
    }
  }

  lemma HashesAlone(a: string, j: nat, rest: string)
    requires Blanks(a) && Blanks(rest)
    ensures Trim(a + Hashes(j) + rest) == Hashes(j)
  {
    hide Trim, Blanks;
    BlanksAreBlank(a);
    BlanksAreBlank(rest);
    if j == 0 {
      assert a + Hashes(0) + rest == a + rest;
      TrimOfBlank(a + rest);
    } else {
      TrimAround(a, Hashes(j), rest);
    }
  }

  lemma HashesGlued(a: string, j: nat, rest: string) returns (core: string)
    requires Blanks(a) && rest != [] && !Blanks(rest[..1])
    ensures core != [] && core[0] == rest[0] && Trim(a + Hashes(j) + rest) == Hashes(j) + core
  {
    hide Trim, Blanks;
    BlanksAreBlank(a);
    BlanksAreBlank(rest[..1]);
    var e := BackOver(rest, 0, |rest|);
    BackOverBlank(rest, 0, |rest|);
    NotAllBlank(rest, 0, |rest|);
    core := rest[..e];
    assert a + Hashes(j) + rest == a + (Hashes(j) + core) + rest[e..];
    TrimAround(a, Hashes(j) + core, rest[e..]);
  }

  // ----- The edits on the lines of a text ------------------------------------------------

  /** The line says the needle, behind and in front of blanks. */
  ghost predicate Says(line: string, needle: string)
  {
    exists a, b :: SaysParts(line, needle, a, b)
  }

  predicate SaysParts(line: string, needle: string, a: string, b: string)
  {
    Blanks(a) && Blanks(b) && line == a + needle + b
  }

  lemma SaysIsTrim(line: string, needle: string)
    requires needle != "" && Trimmed(needle)
    ensures Says(line, needle) <==> Trim(line) == needle
  {
    hide Trim;
    if Says(line, needle) {
      var a, b :| SaysParts(line, needle, a, b);
      BlanksAreBlank(a);
      BlanksAreBlank(b);
      TrimAround(a, needle, b);
    }
    if Trim(line) == needle {
      var a, b := TrimParts(line);
      assert SaysParts(line, needle, a, b);
    }
  }

  ghost predicate OneLineEach(lines: seq<string>) { forall i :: 0 <= i < |lines| ==> OneLine(lines[i]) }

  /** No line of a body ends a section of the level. */
  ghost predicate Inside(lines: seq<string>, level: nat)
  {
    forall i, k :: 0 <= i < |lines| && 1 <= k <= level ==> !Heading(lines[i], k)
  }

  /** Behind the section there is nothing, or a line that is a heading of its rank or a higher one. */
  ghost predicate Ends(tail: string, level: nat)
  {
    tail == "" || exists k :: 1 <= k <= level && Heading(LineAt(tail, 0), k)
  }

  lemma FlatFirst(lines: seq<string>)
    requires lines != []
    ensures Flat(lines) == lines[0] + "\n" + Flat(lines[1..])
  {
    hide Flat;
    assert lines == [lines[0]] + lines[1..] && [] + [lines[0]] == [lines[0]];
    FlatConcat([lines[0]], lines[1..]);
    FlatSnoc([], lines[0]);
    FlatNothing();
    assert [] + lines[0] + "\n" == lines[0] + "\n";
  }

  lemma {:induction false} ClosesBehind(lines: seq<string>, tail: string, level: nat)
    requires OneLineEach(lines) && Inside(lines, level) && Ends(tail, level)
    ensures CloseFrom(Flat(lines) + tail, 0, level) == |Flat(lines)|
  {
    hide Closes, Heading, Flat, LineAt, NextLine;
    if lines == [] {
      FlatNothing();
      assert [] + tail == tail;
      if tail != "" { ClosesExactly(LineAt(tail, 0), level); }
    } else {
      var line, rest := lines[0], Flat(lines[1..]) + tail;
      FlatFirst(lines);
      assert Flat(lines) + tail == line + "\n" + rest;
      FirstLine(line, rest);
      ClosesExactly(line, level);
      ClosesBehind(lines[1..], tail, level);
      CloseBehind(line + "\n", rest, 0, level);
    }
  }

  lemma {:induction false} FoundBehind(front: seq<string>, head: string, rest: string, needle: string, level: nat)
    requires OneLineEach(front) && OneLine(head) && Trim(head) == needle
    requires forall i :: 0 <= i < |front| ==> Trim(front[i]) != needle
    ensures var n := |Flat(front)|;
            SectionFrom(Flat(front) + (head + "\n" + rest), 0, needle, level) ==
            Some(Section(n, n + |head| + 1, n + |head| + 1 + CloseFrom(rest, 0, level)))
  {
    hide Closes, Flat, LineAt, NextLine, CloseFrom, Trim;
    if front == [] {
      FlatNothing();
      assert [] + (head + "\n" + rest) == head + "\n" + rest;
      FirstLine(head, rest);
      CloseBehind(head + "\n", rest, 0, level);
    } else {
      var line, more := front[0], Flat(front[1..]) + (head + "\n" + rest);
      FlatFirst(front);
      assert Flat(front) + (head + "\n" + rest) == line + "\n" + more;
      FirstLine(line, more);
      FoundBehind(front[1..], head, rest, needle, level);
      SectionBehind(line + "\n", more, 0, needle, level);
    }
  }

  /** The section of a heading in a text of which the lines are known: lines that do not say the heading, the
      heading line, lines that do not end the section, and what ends it. */
  ghost predicate Splits(content: string, heading: string, level: nat, front: seq<string>, head: string, body: seq<string>, tail: string)
  {
    content == Flat(front) + (head + "\n" + (Flat(body) + tail)) &&
    OneLineEach(front) && OneLine(head) && OneLineEach(body) &&
    (forall i :: 0 <= i < |front| ==> !Says(front[i], Needle(heading, level))) && Says(head, Needle(heading, level)) &&
    Inside(body, level) && Ends(tail, level)
  }

  /** A title that can stand in a heading. */
  predicate Title(heading: string, level: nat)
  {
    level > 0 && heading != "" && !IsSpace(heading[|heading| - 1])
  }

  lemma SectionOf(content: string, heading: string, level: nat, front: seq<string>, head: string, body: seq<string>, tail: string)
    requires Title(heading, level) && Splits(content, heading, level, front, head, body, tail)
    ensures var n, m := |Flat(front)|, |Flat(front)| + |head| + 1;
            m + |Flat(body)| <= |content| &&
            FindSection(content, heading, level) == Some(Section(n, m, m + |Flat(body)|)) &&
            content[..m] == Flat(front) + head + "\n" && content[m..m + |Flat(body)|] == Flat(body) && content[m + |Flat(body)|..] == tail
  {
    hide SectionFrom, CloseFrom, Says, Flat, Inside, Ends, Trim;
    var needle, rest := Needle(heading, level), Flat(body) + tail;
    assert Trimmed(needle) && needle != "";
    forall line ensures Says(line, needle) <==> Trim(line) == needle {
      SaysIsTrim(line, needle);
    }
    FoundBehind(front, head, rest, needle, level);
    ClosesBehind(body, tail, level);
    assert content == Flat(front) + head + "\n" + Flat(body) + tail;
  }

  /** The edits of a section, on the text: a replacement puts the new body where the old one was and keeps the
      rest, the line that ends the section included; an insertion puts it in front of the old one. */
  lemma EditsOfSection(content: string, heading: string, level: nat, text: string,
                       front: seq<string>, head: string, body: seq<string>, tail: string)
    requires Title(heading, level) && Splits(content, heading, level, front, head, body, tail)
    ensures ReplaceSection(content, heading, level, text) == Some(Flat(front) + head + "\n" + Normalized(text) + tail)
    ensures UpsertSection(content, heading, level, text) == Flat(front) + head + "\n" + Normalized(text) + tail
    ensures InsertAfterHeading(content, heading, level, text) == Some(Flat(front) + head + "\n" + Normalized(text) + Flat(body) + tail)
  {
    hide FindSection, Splits, Flat, Normalized, Title;
    SectionOf(content, heading, level, front, head, body, tail);
    var m: nat := |Flat(front)| + |head| + 1;
    assert content[m..] == content[m..m + |Flat(body)|] + content[m + |Flat(body)|..];
    Joins(Flat(front) + head + "\n" + Normalized(text), Flat(body), tail);
  }

  lemma Joins(a: string, b: string, c: string)
    ensures a + (b + c) == a + b + c
  {
  }

  /** A heading that no line says is not found; an upsert puts it, with its body, behind the text. */
  lemma NoSection(lines: seq<string>, heading: string, level: nat, text: string)
    requires Title(heading, level) && OneLineEach(lines)
    requires forall i :: 0 <= i < |lines| ==> !Says(lines[i], Needle(heading, level))
    ensures FindSection(Flat(lines), heading, level).None?
    ensures UpsertSection(Flat(lines), heading, level, text) == Flat(lines) + Hashes(level) + " " + heading + "\n" + Normalized(text)
  {
    hide FindSection, Says, Flat, Normalized, Needle, UpsertSection, Title;
    NotFound(lines, heading, level);
    FlatEnds(lines);
    Appended(Flat(lines), heading, level, text);
  }

  lemma Appended(content: string, heading: string, level: nat, text: string)
    requires FindSection(content, heading, level).None? && (content == [] || EndsLine(content))
    ensures UpsertSection(content, heading, level, text) == content + Hashes(level) + " " + heading + "\n" + Normalized(text)
  {
    hide FindSection, Normalized, Hashes;
    var h := Hashes(level);
    assert content + (h + " " + heading + "\n") == content + h + " " + heading + "\n";
  }

  /** The same behind a last line without its newline, which it then gets. */
  lemma NoSectionOpen(lines: seq<string>, last: string, heading: string, level: nat, text: string)
    requires Title(heading, level) && OneLineEach(lines) && OneLine(last) && last != ""
    requires (forall i :: 0 <= i < |lines| ==> !Says(lines[i], Needle(heading, level))) && !Says(last, Needle(heading, level))
    ensures UpsertSection(Flat(lines) + last, heading, level, text) ==
            Flat(lines) + last + "\n" + Hashes(level) + " " + heading + "\n" + Normalized(text)
  {
    hide FindSection, Says, Flat, Normalized, Needle, UpsertSection, Title, EndsLine, Hashes;
    NotFoundOpen(lines, last, heading, level);
    OpenEnd(Flat(lines), last);
    AppendedOpen(Flat(lines) + last, heading, level, text);
  }

  lemma OpenEnd(a: string, last: string)
    requires OneLine(last) && last != ""
    ensures a + last != [] && !EndsLine(a + last)
  {
    assert last[|last| - 1] in last;
  }

  lemma AppendedOpen(content: string, heading: string, level: nat, text: string)
    requires FindSection(content, heading, level).None? && content != [] && !EndsLine(content)
    ensures UpsertSection(content, heading, level, text) == content + "\n" + Hashes(level) + " " + heading + "\n" + Normalized(text)
  {
    hide FindSection, Normalized, Hashes;
    var h := Hashes(level);
    assert content + "\n" + (h + " " + heading + "\n") == content + "\n" + h + " " + heading + "\n";
  }

  lemma {:induction false} NotFoundOpen(lines: seq<string>, last: string, heading: string, level: nat)
    requires Title(heading, level) && OneLineEach(lines) && OneLine(last) && last != ""
    requires (forall i :: 0 <= i < |lines| ==> !Says(lines[i], Needle(heading, level))) && !Says(last, Needle(heading, level))
    ensures FindSection(Flat(lines) + last, heading, level).None?
  {
    hide Says, Flat, LineAt, NextLine, CloseFrom, Trim;
    var needle := Needle(heading, level);
    assert Trimmed(needle) && needle != "";
    if lines == [] {
      FlatNothing();
      assert [] + last == last;
      OnlyLine(last, 0);
      assert last[..|last|] == last && LineAt(last, 0) == last && NextLine(last, 0) == |last|;
      SaysIsTrim(last, needle);
    } else {
      var rest := Flat(lines[1..]) + last;
      FlatFirst(lines);
      assert Flat(lines) + last == lines[0] + "\n" + rest;
      FirstLine(lines[0], rest);
      SaysIsTrim(lines[0], needle);
      NotFoundOpen(lines[1..], last, heading, level);
      SectionBehind(lines[0] + "\n", rest, 0, needle, level);
    }
  }

  lemma {:induction false} OnlyLine(line: string, i: nat)
    requires OneLine(line) && i <= |line|
    ensures LineStop(line, i) == |line|
    ensures line != "" ==> LineAt(line, 0) == line[..LineStop(line, 0)] && (LineStop(line, 0) == |line| ==> NextLine(line, 0) == |line|)
    decreases |line| - i
  {
    if i < |line| {
      assert line[i] in line;
      OnlyLine(line, i + 1);
    }
  }

  /** A body gets a newline at its end unless it has one or is empty. */
  lemma NormalizedBody(body: string)
    ensures Normalized(body) == if body == "" || body[|body| - 1] == '\n' then body else body + "\n"
  {
  }

  lemma FlatEnds(lines: seq<string>)
    ensures Flat(lines) == [] || EndsLine(Flat(lines))
  {
  }

  lemma {:induction false} NotFound(lines: seq<string>, heading: string, level: nat)
    requires Title(heading, level) && OneLineEach(lines)
    requires forall i :: 0 <= i < |lines| ==> !Says(lines[i], Needle(heading, level))
    ensures FindSection(Flat(lines), heading, level).None?
  {
    hide Says, Flat, LineAt, NextLine, CloseFrom, Trim;
    var needle := Needle(heading, level);
    if lines == [] {
      FlatNothing();
    } else {
      assert Trimmed(needle) && needle != "";
      FlatFirst(lines);
      FirstLine(lines[0], Flat(lines[1..]));
      SaysIsTrim(lines[0], needle);
      NotFound(lines[1..], heading, level);
      SectionBehind(lines[0] + "\n", Flat(lines[1..]), 0, needle, level);
    }
  }
}

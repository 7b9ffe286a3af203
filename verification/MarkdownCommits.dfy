/** Markdown sections carried through a session to the file, and found again in it whatever its line ends
    are (structure_adapters.cpp: markdown_upsert_section, stage_whole_file_change). */
module MarkdownCommits {
  import opened Text
  import opened TextLines
  import opened Markdown
  import opened Encoding
  import opened ChangeRoundTrip
  import opened PatchStore
  import opened Undo
  import opened Sessions
  import opened SessionRuns
  import opened StagingOrder
  import opened Spared
  import opened StagedEdits

  // ----- Sections and line ends ----------------------------------------------------------

  /** Carriage returns stand directly before newlines only. */
  predicate EndsOnly(text: string)
  {
    forall i :: 0 <= i < |text| && text[i] == '\r' ==> i + 1 < |text| && text[i + 1] == '\n'
  }

  lemma {:induction false} BackInFront(s: string, x: string, lo: nat, hi: nat)
    requires lo <= hi <= |s|
    ensures BackOver(s + x, lo, hi) == BackOver(s, lo, hi)
    decreases hi
  {
    if hi > lo && IsSpace(s[hi - 1]) { BackInFront(s, x, lo, hi - 1); }
  }

  /** A carriage return at its end is no part of a trimmed line. */
  lemma TrimReturn(line: string)
    ensures Trim(line + "\r") == Trim(line)
  {
    var a, text := SkipSpace(line, 0), line + "\r";
    SkipSpaceBlank(line, 0);
    if a == |line| {
      SkipSpaceUnique(text, 0, |text|);
    } else {
      SkipSpaceUnique(text, 0, a);
      BackInFront(line, "\r", a, |line|);
      assert text[..|line|] == line;
    }
  }

  /** The first line of a text, as it is once the carriage returns are gone. */
  lemma FirstStripped(text: string)
    requires text != [] && EndsOnly(text)
    ensures var s, k := StripCR(text), NextLine(text, 0);
            s == StripCR(text[..k]) + StripCR(text[k..]) && EndsOnly(text[k..]) && s != [] &&
            Trim(LineAt(s, 0)) == Trim(LineAt(text, 0)) && NextLine(s, 0) == |StripCR(text[..k])|
  {
    hide StripCR, Trim;
    var j, k := LineStop(text, 0), NextLine(text, 0);
    var line, rest := text[..j], text[k..];
    assert text == text[..k] + rest;
    StripConcat(text[..k], rest);
    LineIsOne(text, 0);
    if j < |text| {
      assert text[..k] == line + "\n";
      var l := BareLine(text, j);
      StripConcat(line, "\n");
      StripCROfClean("\n");
      FirstLine(l, StripCR(rest));
      assert StripCR(text) == l + "\n" + StripCR(rest);
    } else {
      NoReturnLeft(text, j);
      assert text[..k] == text && rest == [];
      StripCROfClean(text);
    }
  }

  lemma {:induction false} NoNewlineLeft(text: string, i: nat)
    requires i <= |text|
    ensures forall p :: i <= p < LineStop(text, i) ==> text[p] != '\n'
    decreases |text| - i
  {
    if i < |text| && text[i] != '\n' { NoNewlineLeft(text, i + 1); }
  }

  /** In front of the line's end there is no carriage return. */
  lemma NoReturnLeft(text: string, j: nat)
    requires EndsOnly(text) && j == LineStop(text, 0)
    ensures forall i :: 0 <= i < j - 1 ==> text[i] != '\r'
    ensures j == |text| ==> '\r' !in text
  {
    NoNewlineLeft(text, 0);
    forall i | 0 <= i < j && text[i] == '\r' ensures i == j - 1 && j < |text| {
      assert text[i + 1] == '\n';
    }
  }

  lemma BareLine(text: string, j: nat) returns (l: string)
    requires EndsOnly(text) && j == LineStop(text, 0) < |text|
    ensures StripCR(text[..j]) == l && OneLine(l) && Trim(text[..j]) == Trim(l)
  {
    hide StripCR, Trim;
    var line := text[..j];
    NoReturnLeft(text, j);
    NoNewlineLeft(text, 0);
    if j > 0 && text[j - 1] == '\r' {
      l := text[..j - 1];
      assert line == l + "\r";
      StripSnoc(l, '\r');
      StripCROfClean(l);
      TrimReturn(l);
    } else {
      l := line;
      StripCROfClean(l);
    }
  }

  lemma ClosesByTrim(a: string, b: string, level: nat)
    requires Trim(a) == Trim(b)
    ensures Closes(a, level) <==> Closes(b, level)
  {
  }

  lemma StripPrefix(text: string, k: nat, e: nat)
    requires k + e <= |text|
    ensures StripCR(text[..k + e]) == StripCR(text[..k]) + StripCR(text[k..][..e])
  {
    hide StripCR;
    assert text[..k + e] == text[..k] + text[k..][..e];
    StripConcat(text[..k], text[k..][..e]);
  }

  lemma {:induction false} CloseStripped(text: string, level: nat)
    requires EndsOnly(text)
    ensures CloseFrom(StripCR(text), 0, level) == |StripCR(text[..CloseFrom(text, 0, level)])|
    decreases |text|
  {
    hide StripCR, Closes, Trim, EndsOnly, LineAt, NextLine;
    StripNil();
    if text != [] {
      FirstStripped(text);
      var s, k := StripCR(text), NextLine(text, 0);
      var rest := text[k..];
      ClosesByTrim(LineAt(s, 0), LineAt(text, 0), level);
      if Closes(LineAt(text, 0), level) {
        assert text[..0] == [];
      } else {
        assert text == text[..k] + rest;
        CloseBehind(text[..k], rest, 0, level);
        CloseBehind(StripCR(text[..k]), StripCR(rest), 0, level);
        CloseStripped(rest, level);
        StripPrefix(text, k, CloseFrom(rest, 0, level));
      }
    } else {
      assert text[..0] == [];
    }
  }

  /** Where a position of a text is once the carriage returns are gone. */
  function Moved(text: string, s: Section): Section
    requires s.start <= s.bodyStart <= s.end <= |text|
  {
    Section(|StripCR(text[..s.start])|, |StripCR(text[..s.bodyStart])|, |StripCR(text[..s.end])|)
  }

  /** A section is found at the same place with and without the carriage returns. */
  lemma {:induction false} SectionStripped(text: string, needle: string, level: nat)
    requires EndsOnly(text)
    ensures var s, t := SectionFrom(text, 0, needle, level), SectionFrom(StripCR(text), 0, needle, level);
            if s.Some? then t == Some(Moved(text, s.value)) else t.None?
    decreases |text|
  {
    hide StripCR, Closes, Trim, EndsOnly, LineAt, NextLine, CloseFrom;
    StripNil();
    if text != [] {
      FirstStripped(text);
      var s, k := StripCR(text), NextLine(text, 0);
      var rest, front := text[k..], text[..k];
      assert text == front + rest && text[..0] == [];
      if Trim(LineAt(text, 0)) == needle {
        CloseBehind(front, rest, 0, level);
        CloseBehind(StripCR(front), StripCR(rest), 0, level);
        CloseStripped(rest, level);
        StripPrefix(text, k, CloseFrom(rest, 0, level));
      } else {
        SectionBehind(front, rest, 0, needle, level);
        SectionBehind(StripCR(front), StripCR(rest), 0, needle, level);
        SectionStripped(rest, needle, level);
        var f := SectionFrom(rest, 0, needle, level);
        if f.Some? {
          StripPrefix(text, k, f.value.start);
          StripPrefix(text, k, f.value.bodyStart);
          StripPrefix(text, k, f.value.end);
        }
      }
    }
  }

  lemma StripSlice(text: string, a: nat, b: nat)
    requires a <= b <= |text|
    ensures |StripCR(text[..a])| <= |StripCR(text[..b])| <= |StripCR(text)|
    ensures StripCR(text)[|StripCR(text[..a])|..|StripCR(text[..b])|] == StripCR(text[a..b])
  {
    hide StripCR;
    assert text[..b] == text[..a] + text[a..b] && text == text[..b] + text[b..];
    StripConcat(text[..a], text[a..b]);
    StripConcat(text[..b], text[b..]);
  }

  /** Two texts that differ in their line ends alone have the same sections. */
  lemma SameSections(a: string, b: string, heading: string, level: nat)
    requires EndsOnly(a) && EndsOnly(b) && StripCR(a) == StripCR(b)
    ensures var f, g := FindSection(a, heading, level), FindSection(b, heading, level);
            (f.Some? <==> g.Some?) &&
            (f.Some? ==>
              StripCR(a[f.value.bodyStart..f.value.end]) == StripCR(b[g.value.bodyStart..g.value.end]) &&
              StripCR(a[..f.value.bodyStart]) == StripCR(b[..g.value.bodyStart]) &&
              StripCR(a[f.value.end..]) == StripCR(b[g.value.end..]))
  {
    hide StripCR, EndsOnly, SectionFrom, Needle;
    var f, g := FindSection(a, heading, level), FindSection(b, heading, level);
    SectionStripped(a, Needle(heading, level), level);
    SectionStripped(b, Needle(heading, level), level);
    if f.Some? {
      var s, t := f.value, g.value;
      SliceOf(a, b, s.bodyStart, s.end, t.bodyStart, t.end);
      SliceOf(a, b, 0, s.bodyStart, 0, t.bodyStart);
      SliceOf(a, b, s.end, |a|, t.end, |b|);
      assert a[0..s.bodyStart] == a[..s.bodyStart] && b[0..t.bodyStart] == b[..t.bodyStart];
      assert a[s.end..|a|] == a[s.end..] && b[t.end..|b|] == b[t.end..];
      assert a[..0] == [] && b[..0] == [] && a[..|a|] == a && b[..|b|] == b;
    }
  }

  lemma SliceOf(a: string, b: string, i: nat, j: nat, k: nat, l: nat)
    requires i <= j <= |a| && k <= l <= |b| && StripCR(a) == StripCR(b)
    ensures |StripCR(a[..i])| == |StripCR(b[..k])| && |StripCR(a[..j])| == |StripCR(b[..l])| ==>
              StripCR(a[i..j]) == StripCR(b[k..l])
  {
    hide StripCR;
    StripSlice(a, i, j);
    StripSlice(b, k, l);
  }

  // ----- An upserted section in the file -------------------------------------------------

  /** The text holds the section with the body, up to the first line of it that ends the section, and is
      otherwise the upserted text; all but for line ends. */
  ghost predicate Upserted(current: string, heading: string, level: nat, body: string, text: string)
  {
    var f, n := FindSection(text, heading, level), Normalized(body);
    f.Some? && StripCR(text[f.value.bodyStart..f.value.end]) == StripCR(n[..CloseFrom(n, 0, level)]) &&
    StripCR(text) == StripCR(UpsertSection(current, heading, level, body))
  }

  /** The heading is found with a newline behind it, or is not found although it could be. */
  predicate Placed(current: string, heading: string, level: nat)
  {
    var f := FindSection(current, heading, level);
    if f.Some? then HeadingTerminated(current, f.value) else Findable(heading, level)
  }

  lemma UpsertedItself(current: string, heading: string, level: nat, body: string)
    requires Placed(current, heading, level)
    ensures Upserted(current, heading, level, body, UpsertSection(current, heading, level, body))
  {
    hide StripCR, SectionFrom, CloseFrom, Normalized, HeadingTerminated, Findable, UpsertSection;
    UpsertThenFind(current, heading, level, body);
    var once, n := UpsertSection(current, heading, level, body), Normalized(body);
    var g, e := FindSection(once, heading, level).value, CloseFrom(n, 0, level);
    SliceFront(once, g.bodyStart, |n|, e);
  }

  lemma SliceFront(s: string, i: nat, n: nat, e: nat)
    requires e <= n && i + n <= |s|
    ensures s[i..i + n][..e] == s[i..i + e]
  {
  }

  lemma UpsertedStripped(current: string, heading: string, level: nat, body: string, a: string, b: string)
    requires Upserted(current, heading, level, body, a) && EndsOnly(a) && EndsOnly(b) && StripCR(a) == StripCR(b)
    ensures Upserted(current, heading, level, body, b)
  {
    hide StripCR, EndsOnly, FindSection, CloseFrom, Normalized, UpsertSection;
    SameSections(a, b, heading, level);
  }

  lemma LaidEnds(text: string, eol: Eol)
    ensures EndsOnly(Encoding.Laid(text, eol))
  {
    hide StripCR, WithCR;
    LaidEndsAs(text, eol);
  }

  /** Decoding what was encoded gives the text laid out, unless the file starts with a byte order mark that
      the encoding did not write. */
  lemma DecodedLaid(text: string, format: Format)
    requires '\0' !in text && (format.bom || FileMark(Encode(text, format)) == "")
    ensures var d := Decode(Encode(text, format)); d.Some? && d.value.text == Encoding.Laid(text, format.eol)
  {
    hide Encoding.Laid, EolOf, FileMark;
    var raw, body := Encode(text, format), Encoding.Laid(text, format.eol);
    WrittenIsStable(text, format);
    if format.bom {
      FileMarkOfMarked(format, body);
      assert raw[|Mark(format)|..] == body;
    } else {
      NoMark(format);
      assert raw == body && raw[0..] == raw;
    }
  }

  lemma UpsertReads(current: string, heading: string, level: nat, body: string, format: Format)
    requires Placed(current, heading, level)
    requires var next := UpsertSection(current, heading, level, body);
             EndsOnly(next) && '\0' !in next && (format.bom || FileMark(Encode(next, format)) == "")
    ensures var d := Decode(Encode(UpsertSection(current, heading, level, body), format));
            d.Some? && Upserted(current, heading, level, body, d.value.text)
  {
    hide Decode, Encode, Encoding.Laid, UpsertSection, Placed, EndsOnly, StripCR, Upserted, FileMark;
    var next := UpsertSection(current, heading, level, body);
    UpsertedItself(current, heading, level, body);
    DecodedLaid(next, format);
    LaidEnds(next, format.eol);
    LaidStrips(next, format.eol);
    UpsertedStripped(current, heading, level, body, next, Encoding.Laid(next, format.eol));
  }

  /** A Markdown upsert from end to end: made on what the session has of the file, added behind its other
      changes, and committed after any calls that leave the file alone.  The file then decodes to a text
      in which the heading is found and has the new body, and the rest is what it was, all but for line
      ends. */
  lemma MarkdownUpsertFollowed(cfg: Config, id: string, d: Disk, s: Sess, adds: seq<Addition>, calls: seq<Call>,
                               current: string, heading: string, level: nat, body: string)
    requires Sound(d) && Active(s) && s.entries == [] && 0 < |adds| <= 9999 && SizesFit(adds[|adds| - 1].input)
    requires var a := adds[|adds| - 1].input;
             a.operation == "replace_content" && a.newContent == UpsertSection(current, heading, level, body) &&
             Materialized(cfg, d.files, AddAll(id, s, adds[..|adds| - 1]), a.path) == Some(current)
    requires Placed(current, heading, level) && EndsOnly(UpsertSection(current, heading, level, body))
    requires SparesAll(cfg, id, World(d, AddAll(id, s, adds)), calls, adds[|adds| - 1].input.path)
    requires var w := Run(cfg, id, World(d, AddAll(id, s, adds)), calls); DoCommit(cfg, w.disk, w.sess).2.Some?
    ensures var path, w := adds[|adds| - 1].input.path, Run(cfg, id, World(d, AddAll(id, s, adds)), calls);
            var bytes := BytesAt(DoCommit(cfg, w.disk, w.sess).0.files, path);
            ReadState(cfg, d.files, path).Some? && bytes.Some? &&
            (ReadState(cfg, d.files, path).value.format.bom || FileMark(bytes.value) == "" ==>
             Decode(bytes.value).Some? && Upserted(current, heading, level, body, Decode(bytes.value).value.text))
  {
    hide AddAll, DoCommit, Sound, BytesAt, ReadState, Encode, Decode, UpsertSection, Placed, EndsOnly, Upserted, Materialized, Run, SparesAll,
      SizesFit, Active, FileMark;
    StagedIsCommitted(cfg, id, d, s, adds, calls);
    var format := ReadState(cfg, d.files, adds[|adds| - 1].input.path).value.format;
    var next := UpsertSection(current, heading, level, body);
    if format.bom || FileMark(Encode(next, format)) == "" {
      UpsertReads(current, heading, level, body, format);
    }
  }
}

/** Byte order marks and line ends (patch_service.cpp: read_text_file, encode_text). */
module Encoding {
  import opened Text
  import opened TextLines

  datatype Eol = Lf | Crlf
  datatype Charset = Utf8 | Utf16le

  /** How a file's text is laid out in bytes. */
  datatype Format = Format(eol: Eol, bom: bool, charset: Charset)

  datatype Decoded = Decoded(text: string, format: Format)

  /** The format of a file that does not exist. */
  const PLAIN := Format(Lf, false, Utf8)

  const UTF8_MARK := "\U{EF}\U{BB}\U{BF}"
  const UTF16_MARK := "\U{FF}\U{FE}"

  function Mark(format: Format): string
  {
    if !format.bom then [] else if format.charset == Utf8 then UTF8_MARK else UTF16_MARK
  }

  function EolOf(text: string): Eol
  {
    if Find(text, "\r\n", 0).Some? then Crlf else Lf
  }

  /** The byte order mark a file starts with. */
  function FileMark(raw: string): (mark: string)
    ensures |mark| <= |raw| && raw[..|mark|] == mark
    ensures |mark| > 0 ==> raw[|mark| - 1] != '\r'
  {
    AtSlice(raw, 0, UTF8_MARK);
    AtSlice(raw, 0, UTF16_MARK);
    if At(raw, 0, UTF8_MARK) then UTF8_MARK else if At(raw, 0, UTF16_MARK) then UTF16_MARK else []
  }

  /** read_text_file on the bytes of a file; None for a binary file, one with a NUL behind its
      byte order mark.  The text keeps its carriage returns. */
  function Decode(raw: string): Option<Decoded>
  {
    var mark := FileMark(raw);
    var text := raw[|mark|..];
    if '\0' in text then None
    else Some(Decoded(text, Format(EolOf(text), mark != [], if mark == UTF16_MARK then Utf16le else Utf8)))
  }

  /** Every newline behind a carriage return of its own. */
  function WithCR(s: string): string
  {
    if s == [] then []
    else
      var front, c := WithCR(s[..|s| - 1]), s[|s| - 1];
      if c == '\n' then front + "\r\n" else front + [c]
  }

  function Laid(text: string, eol: Eol): string
  {
    if eol == Crlf then WithCR(StripCR(text)) else StripCR(text)
  }

  /** encode_text */
  function Encode(text: string, format: Format): string
  {
    Mark(format) + Laid(text, format.eol)
  }

  method EncodeText(text: string, format: Format) returns (out: string)
    ensures out == Encode(text, format)
  {
    hide WithCR, StripCR;
    var normalized := "";
    StripNil();
    for i := 0 to |text|
      invariant normalized == StripCR(text[..i])
    {
      StripCRStep(text, i);
      if text[i] == '\r' { continue; }
      normalized := normalized + [text[i]];
    }
    assert text[..|text|] == text;
    var converted := "";
    if format.eol == Crlf {
      WithCRNil();
      for i := 0 to |normalized|
        invariant converted == WithCR(normalized[..i])
      {
        WithCRStep(normalized, i);
        if normalized[i] == '\n' {
          converted := converted + "\r\n";
        } else {
          converted := converted + [normalized[i]];
        }
      }
      assert normalized[..|normalized|] == normalized;
    } else {
      converted := normalized;
    }
    out := "";
    if format.bom && format.charset == Utf8 {
      out := UTF8_MARK;
    } else if format.bom && format.charset == Utf16le {
      out := UTF16_MARK;
    }
    out := out + converted;
  }

  lemma StripCRStep(text: string, i: nat)
    requires i < |text|
    ensures StripCR(text[..i + 1]) ==
            if text[i] == '\r' then StripCR(text[..i]) else StripCR(text[..i]) + [text[i]]
  {
    assert text[..i + 1][..i] == text[..i];
  }

  lemma WithCRNil()
    ensures WithCR([]) == []
  {
  }

  lemma WithCRStep(s: string, i: nat)
    requires i < |s|
    ensures WithCR(s[..i + 1]) == WithCR(s[..i]) + if s[i] == '\n' then "\r\n" else [s[i]]
  {
    assert s[..i + 1][..i] == s[..i];
  }

  // ----- Line ends -----------------------------------------------------------------------

  /** Every carriage return directly before a newline, every newline directly behind a carriage
      return. */
  ghost predicate Paired(text: string)
  {
    (forall i :: 0 <= i < |text| && text[i] == '\r' ==> i + 1 < |text| && text[i + 1] == '\n') &&
    (forall i :: 0 <= i < |text| && text[i] == '\n' ==> 0 < i && text[i - 1] == '\r')
  }

  ghost predicate Canonical(text: string) { '\r' !in text || Paired(text) }

  ghost predicate EndsAs(text: string, eol: Eol)
  {
    if eol == Crlf then Paired(text) else '\r' !in text
  }

  lemma StripSnoc(s: string, c: char)
    ensures StripCR(s + [c]) == if c == '\r' then StripCR(s) else StripCR(s) + [c]
  {
    assert (s + [c])[..|s|] == s;
  }

  lemma WithCRSnoc(s: string, c: char)
    ensures WithCR(s + [c]) == WithCR(s) + if c == '\n' then "\r\n" else [c]
  {
    assert (s + [c])[..|s|] == s;
  }

  lemma PairedSnoc(w: string, c: char)
    requires Paired(w) && c != '\r'
    ensures Paired(w + if c == '\n' then "\r\n" else [c])
  {
    var out := w + if c == '\n' then "\r\n" else [c];
    forall i | 0 <= i < |out| ensures out[i] == if i < |w| then w[i] else (if c == '\n' then "\r\n" else [c])[i - |w|] {
    }
  }

  lemma {:induction false} WithCRPaired(s: string)
    requires '\r' !in s
    ensures Paired(WithCR(s))
    ensures StripCR(WithCR(s)) == s
  {
    hide WithCR, StripCR, Paired;
    if s == [] {
      WithCRNil();
      StripNil();
      NothingPaired();
    } else {
      var front, c := s[..|s| - 1], s[|s| - 1];
      assert c in s;
      assert s == front + [c];
      WithCRPaired(front);
      var w := WithCR(front);
      WithCRSnoc(front, c);
      PairedSnoc(w, c);
      if c == '\n' {
        assert w + "\r\n" == w + "\r" + "\n";
        StripSnoc(w, '\r');
        StripSnoc(w + "\r", '\n');
      } else {
        StripSnoc(w, c);
      }
    }
  }

  lemma NothingPaired()
    ensures Paired([])
  {
  }

  lemma PairedPrefix(text: string)
    requires Paired(text) && text != []
    ensures text[|text| - 1] != '\r'
    ensures text[|text| - 1] != '\n' ==> Paired(text[..|text| - 1])
    ensures text[|text| - 1] == '\n' ==> |text| >= 2 && text[|text| - 2] == '\r' && Paired(text[..|text| - 2])
  {
    var n := |text|;
    assert text[n - 1] == '\n' ==> text[n - 2] == '\r';
  }

  /** Taking the carriage returns out and putting them back changes nothing on paired text. */
  lemma {:induction false} PairedRestored(text: string)
    requires Paired(text)
    ensures WithCR(StripCR(text)) == text
  {
    hide StripCR, WithCR, Paired;
    if text == [] {
      StripNil();
      WithCRNil();
    } else {
      PairedPrefix(text);
      var c := text[|text| - 1];
      if c == '\n' {
        var base := text[..|text| - 2];
        PairedRestored(base);
        StripSnoc(base, '\r');
        StripSnoc(base + "\r", c);
        WithCRSnoc(StripCR(base), c);
        assert text == base + "\r" + [c];
        assert base + "\r\n" == text;
      } else {
        var base := text[..|text| - 1];
        PairedRestored(base);
        StripSnoc(base, c);
        WithCRSnoc(StripCR(base), c);
        assert text == base + [c];
      }
    }
  }

  /** A text is laid out as itself exactly when it has the line ends asked for. */
  lemma LaidFixed(text: string, eol: Eol)
    ensures Laid(text, eol) == text <==> EndsAs(text, eol)
  {
    hide StripCR, WithCR;
    if eol == Crlf {
      WithCRPaired(StripCR(text));
      if Paired(text) { PairedRestored(text); }
    } else {
      StripCROfClean(text);
    }
  }

  lemma LaidEndsAs(text: string, eol: Eol)
    ensures EndsAs(Laid(text, eol), eol)
  {
    hide StripCR, WithCR;
    WithCRPaired(StripCR(text));
  }

  /** The line end found in a text is the one its text is canonical for, if any. */
  lemma EolFits(text: string)
    ensures Canonical(text) <==> EndsAs(text, EolOf(text))
  {
    hide Find;
    var hit := Find(text, "\r\n", 0);
    AtSlice(text, hit.GetOr(0), "\r\n");
    if hit.Some? {
      assert text[hit.value] == text[hit.value..hit.value + 2][0];
      assert text[hit.value] in text;
    } else if '\r' in text {
      var i :| 0 <= i < |text| && text[i] == '\r';
      AtSlice(text, i, "\r\n");
      assert i + 1 < |text| && text[i + 1] == '\n' ==> text[i..i + 2] == "\r\n";
      if At(text, i, "\r\n") { FindSkips(text, "\r\n", 0, i); }
    }
  }

  // ----- Decoding and encoding -----------------------------------------------------------

  lemma DecodeParts(raw: string)
    requires Decode(raw).Some?
    ensures var d := Decode(raw).value;
            raw == Mark(d.format) + d.text && d.format.eol == EolOf(d.text)
  {
    hide EolOf, At;
    var mark := FileMark(raw);
    assert raw == raw[..|mark|] + raw[|mark|..];
  }

  /** Writing a decoded file back restores its bytes exactly when its line ends are canonical. */
  lemma WriteBack(raw: string)
    requires Decode(raw).Some?
    ensures var d := Decode(raw).value;
            Encode(d.text, d.format) == raw <==> Canonical(d.text)
  {
    hide Decode, EolOf, Laid, Mark, Canonical, EndsAs;
    var d := Decode(raw).value;
    DecodeParts(raw);
    LaidFixed(d.text, d.format.eol);
    EolFits(d.text);
    assert Mark(d.format) + Laid(d.text, d.format.eol) == Mark(d.format) + d.text <==>
           Laid(d.text, d.format.eol) == d.text by {
      SamePrefix(Mark(d.format), Laid(d.text, d.format.eol), d.text);
    }
  }

  lemma SamePrefix(p: string, a: string, b: string)
    ensures p + a == p + b <==> a == b
  {
    assert (p + a)[|p|..] == a && (p + b)[|p|..] == b;
  }

  lemma {:induction false} StripMembers(text: string)
    ensures '\0' in StripCR(text) <==> '\0' in text
  {
    if text != [] {
      var front, c := text[..|text| - 1], text[|text| - 1];
      StripMembers(front);
      assert text == front + [c];
    }
  }

  lemma {:induction false} WithCRMembers(s: string)
    ensures '\0' in WithCR(s) <==> '\0' in s
  {
    if s != [] {
      var front, c := s[..|s| - 1], s[|s| - 1];
      WithCRMembers(front);
      assert s == front + [c];
    }
  }

  lemma LaidMembers(text: string, eol: Eol)
    ensures '\0' in Laid(text, eol) <==> '\0' in text
  {
    hide StripCR, WithCR;
    StripMembers(text);
    WithCRMembers(StripCR(text));
  }

  lemma SuffixCanonical(text: string, n: nat, eol: Eol)
    requires n <= |text| && EndsAs(text, eol)
    requires n > 0 ==> text[n - 1] != '\r'
    ensures Canonical(text[n..])
  {
    if eol == Lf {
      assert forall c :: c in text[n..] ==> c in text;
    }
  }

  lemma FileMarkOfMarked(format: Format, body: string)
    requires format.bom
    ensures FileMark(Mark(format) + body) == Mark(format)
  {
    hide At;
    var raw := Mark(format) + body;
    AtSlice(raw, 0, UTF8_MARK);
    AtSlice(raw, 0, UTF16_MARK);
    assert raw[..|Mark(format)|] == Mark(format);
    if format.charset == Utf16le {
      assert raw[0] == '\U{FF}';
      assert UTF8_MARK[0] == '\U{EF}';
      assert |raw| >= 3 ==> raw[..3][0] == raw[0];
    }
  }

  /** What decoding makes of encoded bytes: the body, less a byte order mark of its own if the
      format writes none. */
  lemma DecodeEncoded(text: string, format: Format) returns (n: nat)
    ensures var raw, body := Encode(text, format), Laid(text, format.eol);
            Decode(raw).Some? <==> '\0' !in text
    ensures var raw, body := Encode(text, format), Laid(text, format.eol);
            n <= |body| && (n > 0 ==> body[n - 1] != '\r') && (format.bom ==> n == 0)
    ensures var raw, body := Encode(text, format), Laid(text, format.eol);
            Decode(raw).Some? ==> Decode(raw).value.text == body[n..]
  {
    hide Laid, EolOf, FileMark, Mark;
    var raw, body := Encode(text, format), Laid(text, format.eol);
    LaidMembers(text, format.eol);
    if format.bom {
      n := 0;
      FileMarkOfMarked(format, body);
      assert raw[|Mark(format)|..] == body;
      assert body[0..] == body;
    } else {
      NoMark(format);
      assert raw == body;
      n := |FileMark(raw)|;
      MarkPlain(raw);
      assert body == FileMark(raw) + body[n..];
    }
  }

  lemma NoMark(format: Format)
    requires !format.bom
    ensures Mark(format) == []
  {
  }

  lemma MarkPlain(raw: string)
    ensures '\0' !in FileMark(raw)
  {
  }

  /** Whatever the code wrote it reads back, unless it holds a NUL, and writes again byte for byte:
      every text file is canonical from its first write on. */
  lemma WrittenIsStable(text: string, format: Format)
    ensures var raw := Encode(text, format);
            Decode(raw).Some? <==> '\0' !in text
    ensures var raw := Encode(text, format);
            '\0' !in text ==> Encode(Decode(raw).value.text, Decode(raw).value.format) == raw
  {
    hide Decode, Encode, Laid, EolOf, Canonical, EndsAs;
    var n := DecodeEncoded(text, format);
    var raw, body := Encode(text, format), Laid(text, format.eol);
    if '\0' !in text {
      LaidEndsAs(text, format.eol);
      WriteBack(raw);
      SuffixCanonical(body, n, format.eol);
    }
  }

  lemma {:induction false} StripConcat(a: string, b: string)
    ensures StripCR(a + b) == StripCR(a) + StripCR(b)
    decreases |b|
  {
    hide StripCR;
    if b == [] {
      StripNil();
      assert a + b == a && StripCR(a) + [] == StripCR(a);
    } else {
      var front, c := b[..|b| - 1], b[|b| - 1];
      assert a + b == a + front + [c] && b == front + [c];
      StripConcat(a, front);
      StripSnoc(a + front, c);
      StripSnoc(front, c);
    }
  }

  lemma MarkClean(format: Format)
    ensures '\r' !in Mark(format)
    ensures format.bom <==> Mark(format) != []
  {
  }

  /** The bytes written for a content are the content itself exactly when the format has no byte
      order mark and the content already has the format's line ends.  A session, which keeps the
      mark of a marked file in its contents, therefore never writes such a file as planned. */
  lemma WrittenAsIs(content: string, format: Format)
    ensures Encode(content, format) == content <==> !format.bom && EndsAs(content, format.eol)
  {
    hide StripCR, WithCR, Mark, EndsAs;
    MarkClean(format);
    LaidFixed(content, format.eol);
    var body := Laid(content, format.eol);
    if format.bom {
      StripConcat(Mark(format), body);
      StripCROfClean(Mark(format));
      WithCRPaired(StripCR(content));
      StripCROfClean(StripCR(content));
      assert StripCR(body) == StripCR(content);
      assert Mark(format) + body == content ==> |StripCR(content)| == |Mark(format)| + |StripCR(content)|;
    } else {
      assert Mark(format) + body == body;
    }
  }

  // ----- The same file from another content ----------------------------------------------

  lemma {:induction false} WithCRConcat(a: string, b: string)
    ensures WithCR(a + b) == WithCR(a) + WithCR(b)
    decreases |b|
  {
    hide WithCR;
    if b == [] {
      WithCRNil();
      assert a + b == a && WithCR(a) + [] == WithCR(a);
    } else {
      var front, c := b[..|b| - 1], b[|b| - 1];
      assert a + b == a + front + [c] && b == front + [c];
      WithCRConcat(a, front);
      WithCRSnoc(front, c);
      WithCRSnoc(a + front, c);
    }
  }

  lemma LaidJoins(a: string, b: string, eol: Eol)
    ensures Laid(a + b, eol) == Laid(a, eol) + Laid(b, eol)
  {
    hide StripCR, WithCR;
    StripConcat(a, b);
    WithCRConcat(StripCR(a), StripCR(b));
  }

  lemma LaidStrips(text: string, eol: Eol)
    ensures StripCR(Laid(text, eol)) == StripCR(text)
  {
    hide StripCR, WithCR;
    WithCRPaired(StripCR(text));
    StripCROfClean(StripCR(text));
  }

  /** Two contents make the same file in a format exactly when they differ in carriage returns alone. */
  lemma SameEncoded(a: string, b: string, format: Format)
    ensures Encode(a, format) == Encode(b, format) <==> StripCR(a) == StripCR(b)
  {
    hide StripCR, WithCR, Mark;
    LaidStrips(a, format.eol);
    LaidStrips(b, format.eol);
    SamePrefix(Mark(format), Laid(a, format.eol), Laid(b, format.eol));
  }

  // ----- Files that are not written back as they were ------------------------------------

  lemma MixedFound()
    ensures EolOf("a\r\nb\n") == Crlf && FileMark("a\r\nb\n") == [] && '\0' !in "a\r\nb\n"
  {
    var raw := "a\r\nb\n";
    AtSlice(raw, 1, "\r\n");
    assert raw[1..3] == "\r\n";
    FindSkips(raw, "\r\n", 0, 1);
  }

  lemma MixedStripped()
    ensures StripCR("a\r\nb\n") == "a\nb\n"
  {
    hide StripCR;
    assert "a\r\nb\n" == "a\r" + "\nb\n" && "a\r" == "a" + ['\r'];
    StripSnoc("a", '\r');
    StripCROfClean("a");
    StripCROfClean("\nb\n");
    StripConcat("a\r", "\nb\n");
  }

  lemma MixedRestored()
    ensures WithCR("a\nb\n") == "a\r\nb\r\n"
  {
    hide WithCR;
    WithCRNil();
    WithCRSnoc([], 'a');
    assert [] + ['a'] == "a" && "a" + ['\n'] == "a\n" && "a\n" + ['b'] == "a\nb" && "a\nb" + ['\n'] == "a\nb\n";
    WithCRSnoc("a", '\n');
    WithCRSnoc("a\n", 'b');
    WithCRSnoc("a\nb", '\n');
  }

  /** A file with mixed line ends: writing it back adds a carriage return. */
  lemma MixedEndsLost()
    ensures var d := Decode("a\r\nb\n"); d.Some? && Encode(d.value.text, d.value.format) == "a\r\nb\r\n"
  {
    hide EolOf, FileMark, WithCR, StripCR;
    MixedFound();
    MixedStripped();
    MixedRestored();
    var raw := "a\r\nb\n";
    assert raw[0..] == raw;
  }

  lemma MarkedParts()
    ensures FileMark(UTF8_MARK + "a") == UTF8_MARK && (UTF8_MARK + "a")[3..] == "a"
    ensures EolOf("a") == Lf && '\0' !in "a"
    ensures StripCR(UTF8_MARK + "a") == UTF8_MARK + "a"
  {
    var raw := UTF8_MARK + "a";
    assert raw[..3] == UTF8_MARK;
    AtSlice(raw, 0, UTF8_MARK);
    assert '\r' !in raw;
    StripCROfClean(raw);
  }

  /** A file with a byte order mark: its bytes as a session's content, written in its own format, get
      a second mark. */
  lemma MarkIsDoubled()
    ensures var d := Decode(UTF8_MARK + "a");
            d.Some? && Encode(UTF8_MARK + "a", d.value.format) == UTF8_MARK + UTF8_MARK + "a"
  {
    hide EolOf, FileMark, StripCR;
    MarkedParts();
    assert UTF8_MARK + (UTF8_MARK + "a") == UTF8_MARK + UTF8_MARK + "a";
  }

  // ----- Writing the same content over what it made --------------------------------------

  lemma {:induction false} NoNewlineLaid(s: string)
    requires '\n' !in s
    ensures WithCR(s) == s
  {
    if s != [] {
      assert s[|s| - 1] in s;
      NoNewlineLaid(s[..|s| - 1]);
      assert s == s[..|s| - 1] + [s[|s| - 1]];
    }
  }

  lemma {:induction false} NewlinePaired(s: string)
    requires '\n' in s
    ensures '\n' in WithCR(s)
  {
    var front, c := s[..|s| - 1], s[|s| - 1];
    assert s == front + [c];
    if c != '\n' { NewlinePaired(front); }
    assert c == '\n' ==> WithCR(s)[|WithCR(s)| - 1] == '\n';
  }

  lemma PairedEol(text: string)
    requires Paired(text) && '\n' in text
    ensures EolOf(text) == Crlf
  {
    hide Find;
    var i :| 0 <= i < |text| && text[i] == '\n';
    AtSlice(text, i - 1, "\r\n");
    assert text[i - 1..i + 1] == "\r\n";
    FindSkips(text, "\r\n", 0, i - 1);
  }

  /** The line end found in a laid-out text, or behind its mark, lays the content out the same. */
  lemma LaidEol(content: string, eol: Eol, n: nat)
    requires var body := Laid(content, eol); n <= |body| && forall i :: 0 <= i < n ==> body[i] != '\n'
    requires n > 0 ==> Laid(content, eol)[n - 1] != '\r'
    ensures Laid(content, EolOf(Laid(content, eol)[n..])) == Laid(content, eol)
  {
    hide StripCR, WithCR, Find;
    var s, body := StripCR(content), Laid(content, eol);
    var text := body[n..];
    WithCRPaired(s);
    if eol == Lf {
      assert '\r' !in text;
      NoPairs(text);
    } else if '\n' in s {
      NewlinePaired(s);
      var i :| 0 <= i < |body| && body[i] == '\n';
      assert text[i - n] == '\n';
      assert Paired(text);
      PairedEol(text);
    } else {
      NoNewlineLaid(s);
    }
  }

  lemma NoPairs(text: string)
    requires '\r' !in text
    ensures EolOf(text) == Lf
  {
    var hit := Find(text, "\r\n", 0);
    NoPairAt(text, hit.GetOr(0));
  }

  lemma NoPairAt(text: string, p: nat)
    requires '\r' !in text
    ensures !At(text, p, "\r\n")
  {
    assert "\r\n"[0] == '\r';
    assert p < |text| ==> text[p] in text;
  }

  lemma MarkHoldsNoEnds(raw: string)
    ensures forall i :: 0 <= i < |FileMark(raw)| ==> raw[i] != '\n' && raw[i] != '\r'
    ensures FileMark(raw) in {"", UTF8_MARK, UTF16_MARK}
  {
    var m := FileMark(raw);
    forall i | 0 <= i < |m| ensures raw[i] == m[i] {
      assert raw[..|m|][i] == m[i];
    }
  }

  lemma FormatOfEncoded(content: string, format: Format)
    requires '\0' !in content
    ensures var raw, n := Encode(content, format), if format.bom then 0 else |FileMark(Laid(content, format.eol))|;
            Decode(raw).Some? && n <= |Laid(content, format.eol)| &&
            Decode(raw).value.format.eol == EolOf(Laid(content, format.eol)[n..]) &&
            Mark(Decode(raw).value.format) == FileMark(raw)
  {
    hide Laid, EolOf, FileMark;
    var raw, body := Encode(content, format), Laid(content, format.eol);
    LaidMembers(content, format.eol);
    MarkHoldsNoEnds(raw);
    if format.bom {
      FileMarkOfMarked(format, body);
      assert raw[|Mark(format)|..] == body && body[0..] == body;
    } else {
      NoMark(format);
      assert raw == body;
      MarkPlain(raw);
      assert body == FileMark(raw) + body[|FileMark(raw)|..];
    }
  }

  /** Writing a content again, over the file it has just made, leaves the file as it is, exactly unless
      the content starts with a byte order mark of its own that the first write took for text. */
  lemma WrittenTwice(content: string, format: Format)
    requires '\0' !in content
    ensures var raw := Encode(content, format);
            Decode(raw).Some? &&
            (Encode(content, Decode(raw).value.format) == raw <==> format.bom || FileMark(raw) == "")
  {
    hide Laid, EolOf, FileMark, Decode;
    var raw, body := Encode(content, format), Laid(content, format.eol);
    var n := if format.bom then 0 else |FileMark(body)|;
    FormatOfEncoded(content, format);
    MarkHoldsNoEnds(body);
    LaidEol(content, format.eol, n);
    if format.bom {
      FileMarkOfMarked(format, body);
    } else {
      NoMark(format);
      assert raw == body;
      assert FileMark(raw) == "" ==> "" + body == body;
    }
  }
}

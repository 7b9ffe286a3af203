/** Texts as lines: the line documents of session_service.cpp, which patch_service.cpp repeats. */
module TextLines {

  predicate OneLine(s: string) { '\n' !in s }

  lemma OneLineConcat(a: string, b: string)
    requires OneLine(a) && OneLine(b)
    ensures OneLine(a + b)
  {
  }

  /** One more character behind some pieces. */
  function Push(pieces: seq<string>, c: char): (r: seq<string>)
    requires pieces != []
    ensures r != []
  {
    if c == '\n' then pieces + [[]] else pieces[..|pieces| - 1] + [pieces[|pieces| - 1] + [c]]
  }

  /** The strict pieces between newlines; a text without newlines is one piece. */
  function Pieces(text: string): (r: seq<string>)
    ensures r != []
  {
    if text == [] then [[]] else Push(Pieces(text[..|text| - 1]), text[|text| - 1])
  }

  lemma PiecesChar(text: string, c: char)
    ensures Pieces(text + [c]) == Push(Pieces(text), c)
  {
    assert (text + [c])[..|text|] == text;
  }

  lemma PushConcat(p: seq<string>, q: seq<string>, c: char)
    requires q != []
    ensures Push(p + q, c) == p + Push(q, c)
  {
    assert (p + q)[..|p + q| - 1] == p + q[..|q| - 1];
  }

  lemma PiecesGrow(base: string, p: seq<string>, front: string, c: char)
    requires Pieces(base + front) == p + Pieces(front)
    ensures Pieces(base + (front + [c])) == p + Pieces(front + [c])
  {
    hide Pieces, Push;
    PiecesChar(front, c);
    PiecesChar(base + front, c);
    PushConcat(p, Pieces(front), c);
    assert base + (front + [c]) == base + front + [c];
  }

  lemma PiecesNil()
    ensures Pieces([]) == [[]]
  {
  }

  /** Behind a newline the pieces of a text are simply appended. */
  lemma {:induction false} PiecesBehind(base: string, p: seq<string>, b: string)
    requires Pieces(base) == p + [[]]
    ensures Pieces(base + b) == p + Pieces(b)
    decreases |b|
  {
    hide Pieces, Push;
    if b == [] {
      PiecesNil();
      assert base + b == base;
    } else {
      var front, c := b[..|b| - 1], b[|b| - 1];
      PiecesBehind(base, p, front);
      PiecesGrow(base, p, front, c);
      assert b == front + [c];
    }
  }

  lemma PiecesConcat(a: string, b: string)
    ensures Pieces(a + "\n" + b) == Pieces(a) + Pieces(b)
  {
    PiecesChar(a, '\n');
    PiecesBehind(a + "\n", Pieces(a), b);
  }

  lemma OneLineFront(s: string)
    requires OneLine(s) && s != []
    ensures OneLine(s[..|s| - 1]) && s[|s| - 1] != '\n'
  {
    assert s[|s| - 1] in s;
  }

  lemma PushOne(front: string, c: char)
    requires c != '\n'
    ensures Push([front], c) == [front + [c]]
  {
    assert [front][..0] == [];
  }

  lemma {:induction false} OnePiece(s: string)
    requires OneLine(s)
    ensures Pieces(s) == [s]
  {
    hide OneLine, Pieces, Push;
    if s == [] {
      PiecesNil();
    } else {
      var front, c := s[..|s| - 1], s[|s| - 1];
      OneLineFront(s);
      OnePiece(front);
      PiecesChar(front, c);
      PushOne(front, c);
      assert s == front + [c];
    }
  }

  /** What std::getline reads until the end of the text: no empty piece behind the last newline. */
  function GetLines(text: string): seq<string>
  {
    var r := Pieces(text);
    if r[|r| - 1] == [] then r[..|r| - 1] else r
  }

  // ----- Line documents ------------------------------------------------------------------

  function StripCR(s: string): (r: string)
    ensures '\r' !in r
  {
    if s == [] then []
    else
      var r, c := StripCR(s[..|s| - 1]), s[|s| - 1];
      if c == '\r' then r else r + [c]
  }

  predicate EndsLine(s: string) { s != [] && s[|s| - 1] == '\n' }

  /** The lines of make_document_from_content (and of split_lines). */
  function DocLines(content: string): (lines: seq<string>)
  {
    var p := Pieces(StripCR(content));
    var last := p[|p| - 1];
    if last != [] || (content != [] && !EndsLine(content)) then p else p[..|p| - 1]
  }

  /** make_document_from_content: carriage returns are dropped while the lines are collected. */
  method MakeDocument(content: string) returns (lines: seq<string>, trailingNewline: bool)
    ensures lines == DocLines(content) && trailingNewline == EndsLine(content)
  {
    trailingNewline := content != [] && content[|content| - 1] == '\n';
    lines := [];
    var current := "";
    for i := 0 to |content|
      invariant lines + [current] == Pieces(StripCR(content[..i]))
    {
      hide Pieces, StripCR;
      StripStep(content, i);
      var c := content[i];
      if c == '\r' { continue; }
      if c == '\n' {
        lines := lines + [current];
        current := [];
      } else {
        current := current + [c];
      }
    }
    assert content[..|content|] == content;
    if current != [] || (content != [] && content[|content| - 1] != '\n') {
      lines := lines + [current];
    }
  }

  lemma StripStep(content: string, i: nat)
    requires i < |content|
    ensures Pieces(StripCR(content[..i + 1])) ==
            if content[i] == '\r' then Pieces(StripCR(content[..i])) else Push(Pieces(StripCR(content[..i])), content[i])
  {
    hide Pieces, Push;
    assert content[..i + 1][..i] == content[..i];
    if content[i] != '\r' { PiecesChar(StripCR(content[..i]), content[i]); }
  }

  function Joined(lines: seq<string>): string
  {
    if lines == [] then []
    else if |lines| == 1 then lines[0]
    else Joined(lines[..|lines| - 1]) + "\n" + lines[|lines| - 1]
  }

  function JoinLines(lines: seq<string>, trailingNewline: bool): string
  {
    if trailingNewline && lines != [] then Joined(lines) + "\n" else Joined(lines)
  }

  /** join_lines */
  method JoinDocument(lines: seq<string>, trailingNewline: bool) returns (out: string)
    ensures out == JoinLines(lines, trailingNewline)
  {
    out := "";
    for i := 0 to |lines|
      invariant out == Joined(lines[..i])
    {
      assert lines[..i + 1][..i] == lines[..i];
      if i > 0 { out := out + "\n"; }
      out := out + lines[i];
    }
    assert lines[..|lines|] == lines;
    if trailingNewline && (lines != [] || out != []) { out := out + "\n"; }
  }

  /** Clean lines hold neither newline nor carriage return. */
  ghost predicate CleanDocLines(lines: seq<string>)
  {
    forall i :: 0 <= i < |lines| ==> OneLine(lines[i]) && '\r' !in lines[i]
  }

  lemma {:induction false} JoinedPieces(text: string)
    ensures Joined(Pieces(text)) == text
  {
    hide Pieces, Push;
    if text == [] {
      PiecesNil();
    } else {
      var front, c := text[..|text| - 1], text[|text| - 1];
      assert text == front + [c];
      JoinedPieces(front);
      PiecesChar(front, c);
      JoinedPush(Pieces(front), c);
    }
  }

  lemma JoinedPush(p: seq<string>, c: char)
    requires p != []
    ensures Joined(Push(p, c)) == Joined(p) + [c]
  {
    if c == '\n' {
      assert (p + [[]])[..|p|] == p;
      assert Joined(p) + "\n" + [] == Joined(p) + [c];
    } else {
      var q := Push(p, c);
      assert q[..|q| - 1] == p[..|p| - 1];
      if |p| > 1 {
        assert Joined(p[..|p| - 1]) + "\n" + (p[|p| - 1] + [c]) == Joined(p[..|p| - 1]) + "\n" + p[|p| - 1] + [c];
      }
    }
  }

  lemma {:induction false} PiecesJoined(lines: seq<string>)
    requires lines != [] && forall i :: 0 <= i < |lines| ==> OneLine(lines[i])
    ensures Pieces(Joined(lines)) == lines
  {
    hide Pieces;
    var front, last := lines[..|lines| - 1], lines[|lines| - 1];
    OnePiece(last);
    if front != [] {
      PiecesJoined(front);
      PiecesConcat(Joined(front), last);
      assert lines == front + [last];
    }
  }

  lemma {:induction false} StripCROfClean(s: string)
    ensures '\r' !in s ==> StripCR(s) == s
  {
    if s != [] {
      StripCROfClean(s[..|s| - 1]);
      assert s[|s| - 1] in s;
      assert s == s[..|s| - 1] + [s[|s| - 1]];
    }
  }

  lemma {:induction false} PiecesClean(text: string)
    ensures forall i :: 0 <= i < |Pieces(text)| ==> OneLine(Pieces(text)[i])
    ensures '\r' !in text ==> forall i :: 0 <= i < |Pieces(text)| ==> '\r' !in Pieces(text)[i]
  {
    if text != [] {
      PiecesClean(text[..|text| - 1]);
      assert text[|text| - 1] in text;
    }
  }

  lemma {:induction false} LastPiece(text: string)
    ensures Pieces(text)[|Pieces(text)| - 1] == [] <==> text == [] || EndsLine(text)
  {
  }

  lemma {:induction false} StripEnds(s: string)
    ensures EndsLine(s) ==> EndsLine(StripCR(s))
  {
  }

  /** Splitting a content into its lines and joining them again drops the carriage returns and
      nothing else, for every content. */
  lemma JoinOfSplit(content: string)
    ensures JoinLines(DocLines(content), EndsLine(content)) == StripCR(content)
  {
    hide Pieces, StripCR;
    var s := StripCR(content);
    var p := Pieces(s);
    JoinedPieces(s);
    StripEnds(content);
    LastPiece(s);
    if EndsLine(content) {
      assert p == p[..|p| - 1] + [[]];
      JoinedTail(p);
    } else if content == [] {
      StripNil();
      PiecesNil();
    }
  }

  lemma StripNil()
    ensures StripCR([]) == []
  {
  }

  lemma JoinedTail(p: seq<string>)
    requires p != [] && p[|p| - 1] == []
    ensures |p| > 1 ==> Joined(p) == Joined(p[..|p| - 1]) + "\n"
    ensures |p| == 1 ==> Joined(p) == []
  {
    if |p| > 1 { assert Joined(p[..|p| - 1]) + "\n" + [] == Joined(p[..|p| - 1]) + "\n"; }
  }

  /** Joined lines split into the same lines exactly when no empty last line is left open. */
  lemma SplitOfJoin(lines: seq<string>, trailing: bool)
    requires CleanDocLines(lines)
    ensures DocLines(JoinLines(lines, trailing)) == lines <==>
            trailing || lines == [] || lines[|lines| - 1] != []
  {
    hide Pieces, StripCR, Joined;
    if lines == [] {
      JoinedNil();
      StripNil();
      PiecesNil();
    } else {
      var text := JoinLines(lines, trailing);
      JoinedClean(lines);
      PiecesJoined(lines);
      if trailing {
        StripCROfClean(Joined(lines) + "\n");
        PiecesChar(Joined(lines), '\n');
        assert (lines + [[]])[..|lines|] == lines;
      } else {
        StripCROfClean(text);
        LastPiece(text);
      }
    }
  }

  lemma JoinedNil()
    ensures Joined([]) == []
  {
  }

  lemma {:induction false} JoinedClean(lines: seq<string>)
    requires CleanDocLines(lines)
    ensures '\r' !in Joined(lines)
  {
    if lines != [] {
      JoinedClean(lines[..|lines| - 1]);
    }
  }

  // ----- Lines with their newlines -------------------------------------------------------

  /** Lines with a newline behind each. */
  function Flat(lines: seq<string>): string
  {
    if lines == [] then [] else Flat(lines[..|lines| - 1]) + lines[|lines| - 1] + "\n"
  }

  lemma FlatNothing()
    ensures Flat([]) == []
  {
  }

  lemma FlatSnoc(lines: seq<string>, line: string)
    ensures Flat(lines + [line]) == Flat(lines) + line + "\n"
  {
    assert (lines + [line])[..|lines|] == lines;
  }

  lemma {:induction false} FlatConcat(a: seq<string>, b: seq<string>)
    ensures Flat(a + b) == Flat(a) + Flat(b)
    decreases |b|
  {
    hide Flat;
    if b == [] {
      FlatNothing();
      assert a + b == a;
      assert Flat(a) + [] == Flat(a);
    } else {
      var front, last := b[..|b| - 1], b[|b| - 1];
      FlatConcat(a, front);
      FlatSnoc(front, last);
      FlatSnoc(a + front, last);
      assert a + b == a + front + [last] && b == front + [last];
      Regroup(Flat(a), Flat(front), last);
    }
  }

  lemma Regroup(a: string, b: string, c: string)
    ensures a + (b + c + "\n") == a + b + c + "\n"
  {
  }
}

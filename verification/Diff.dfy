/** The one-hunk context diff (patch_service.cpp: make_context_diff) and the counts a session takes
    from it (session_service.cpp: analyze_diff). */
module Diff {
  import opened Text
  import opened TextLines

  const CONTEXT: nat := 3

  /** A hunk: where it starts in both files (from 0), its line counts, and its tagged lines. */
  datatype Hunk = Hunk(start: nat, oldCount: nat, newCount: nat, body: seq<string>)

  // ----- What both files share -----------------------------------------------------------

  function CommonFrom(a: seq<string>, b: seq<string>, i: nat): (p: nat)
    requires i <= |a| && i <= |b|
    ensures i <= p <= |a| && p <= |b|
    ensures p < |a| && p < |b| ==> a[p] != b[p]
    decreases |a| - i
  {
    if i < |a| && i < |b| && a[i] == b[i] then CommonFrom(a, b, i + 1) else i
  }

  lemma {:induction false} CommonFromShared(a: seq<string>, b: seq<string>, i: nat)
    requires i <= |a| && i <= |b|
    ensures var p := CommonFrom(a, b, i); a[i..p] == b[i..p]
    decreases |a| - i
  {
    if i < |a| && i < |b| && a[i] == b[i] {
      var p := CommonFrom(a, b, i);
      CommonFromShared(a, b, i + 1);
      assert a[i..p] == [a[i]] + a[i + 1..p] && b[i..p] == [b[i]] + b[i + 1..p];
    }
  }

  /** How many lines the ends share, not going below `lo` in either. */
  function CommonEnd(a: seq<string>, b: seq<string>, lo: nat, n: nat): (m: nat)
    requires lo + n <= |a| && lo + n <= |b|
    ensures n <= m && lo + m <= |a| && lo + m <= |b|
    ensures lo + m < |a| && lo + m < |b| ==> a[|a| - m - 1] != b[|b| - m - 1]
    decreases |a| - n
  {
    if lo + n < |a| && lo + n < |b| && a[|a| - n - 1] == b[|b| - n - 1] then CommonEnd(a, b, lo, n + 1) else n
  }

  lemma {:induction false} CommonEndShared(a: seq<string>, b: seq<string>, lo: nat, n: nat)
    requires lo + n <= |a| && lo + n <= |b|
    requires a[|a| - n..] == b[|b| - n..]
    ensures var m := CommonEnd(a, b, lo, n); a[|a| - m..] == b[|b| - m..]
    decreases |a| - n
  {
    if lo + n < |a| && lo + n < |b| && a[|a| - n - 1] == b[|b| - n - 1] {
      assert a[|a| - (n + 1)..] == [a[|a| - n - 1]] + a[|a| - n..];
      assert b[|b| - (n + 1)..] == [b[|b| - n - 1]] + b[|b| - n..];
      CommonEndShared(a, b, lo, n + 1);
    }
  }

  // ----- The hunk ------------------------------------------------------------------------

  function Tagged(tag: char, lines: seq<string>): (out: seq<string>)
    ensures |out| == |lines|
  {
    seq(|lines|, i requires 0 <= i < |lines| => [tag] + lines[i])
  }

  function Body(front: seq<string>, removed: seq<string>, added: seq<string>, tail: seq<string>): seq<string>
  {
    Tagged(' ', front) + Tagged('-', removed) + Tagged('+', added) + Tagged(' ', tail)
  }

  function Min(a: nat, b: nat): nat { if a < b then a else b }

  /** The hunk for files that share `prefix` lines in front and `common` lines at the end. */
  function HunkBetween(was: seq<string>, now: seq<string>, prefix: nat, common: nat): (h: Hunk)
    requires prefix + common <= |was| && prefix + common <= |now|
  {
    var wasEnd, nowEnd := |was| - common, |now| - common;
    var start := if prefix > CONTEXT then prefix - CONTEXT else 0;
    var wasHunkEnd, nowHunkEnd := Min(|was|, wasEnd + CONTEXT), Min(|now|, nowEnd + CONTEXT);
    Hunk(start, wasHunkEnd - start, nowHunkEnd - start,
         Body(was[start..prefix], was[prefix..wasEnd], now[prefix..nowEnd], was[wasEnd..wasHunkEnd]))
  }

  function MakeHunk(was: seq<string>, now: seq<string>): Hunk
  {
    var prefix := CommonFrom(was, now, 0);
    HunkBetween(was, now, prefix, CommonEnd(was, now, prefix, 0))
  }

  function HunkHeader(h: Hunk): string
  {
    "@@ -" + Decimal(h.start + 1) + "," + Decimal(h.oldCount) +
    " +" + Decimal(h.start + 1) + "," + Decimal(h.newCount) + " @@"
  }

  function DiffLines(path: string, was: string, now: string): seq<string>
  {
    ["--- a/" + path, "+++ b/" + path] +
    if was == now then ["@@ no changes @@"]
    else var h := MakeHunk(DocLines(was), DocLines(now)); [HunkHeader(h)] + h.body
  }

  /** make_context_diff */
  function ContextDiff(path: string, was: string, now: string): string
  {
    Flat(DiffLines(path, was, now))
  }

  // ----- Applying a hunk -----------------------------------------------------------------

  /** What patching makes of the lines from `at` on: a ' ' line must be there and stays, a '-' line
      must be there and goes, a '+' line comes in. */
  function Patched(lines: seq<string>, at: nat, body: seq<string>): Option<seq<string>>
    requires at <= |lines|
    decreases |body|
  {
    if body == [] then Some(lines[at..])
    else if body[0] == [] then None
    else
      var tag, text := body[0][0], body[0][1..];
      if tag == '+' then Prepend([text], Patched(lines, at, body[1..]))
      else if at < |lines| && lines[at] == text && tag == '-' then Patched(lines, at + 1, body[1..])
      else if at < |lines| && lines[at] == text && tag == ' ' then Prepend([text], Patched(lines, at + 1, body[1..]))
      else None
  }

  function Prepend(front: seq<string>, rest: Option<seq<string>>): Option<seq<string>>
  {
    match rest case None => None case Some(r) => Some(front + r)
  }

  function ApplyHunk(lines: seq<string>, h: Hunk): Option<seq<string>>
  {
    if h.start > |lines| then None else Prepend(lines[..h.start], Patched(lines, h.start, h.body))
  }

  /** How many lines start with a marker. */
  function CountStart(lines: seq<string>, marker: string): nat
  {
    if lines == [] then 0
    else CountStart(lines[..|lines| - 1], marker) + if StartsWith(lines[|lines| - 1], marker) then 1 else 0
  }

  lemma TaggedTail(tag: char, lines: seq<string>)
    requires lines != []
    ensures Tagged(tag, lines) == [[tag] + lines[0]] + Tagged(tag, lines[1..])
  {
  }

  lemma PrependTwice(a: seq<string>, b: seq<string>, rest: Option<seq<string>>)
    ensures Prepend(a, Prepend(b, rest)) == Prepend(a + b, rest)
  {
    if rest.Some? { assert a + (b + rest.value) == a + b + rest.value; }
  }

  lemma PrependNothing(rest: Option<seq<string>>)
    ensures Prepend([], rest) == rest
  {
    if rest.Some? { assert [] + rest.value == rest.value; }
  }

  lemma PatchedFirst(lines: seq<string>, at: nat, tag: char, text: string, body: seq<string>)
    requires at <= |lines|
    requires tag == '-' || tag == ' ' ==> at < |lines| && lines[at] == text
    ensures tag == '+' ==> Patched(lines, at, [[tag] + text] + body) == Prepend([text], Patched(lines, at, body))
    ensures tag == '-' ==> Patched(lines, at, [[tag] + text] + body) == Patched(lines, at + 1, body)
    ensures tag == ' ' ==> Patched(lines, at, [[tag] + text] + body) == Prepend([text], Patched(lines, at + 1, body))
  {
    var all := [[tag] + text] + body;
    assert all[1..] == body;
    assert all[0][0] == tag && all[0][1..] == text;
  }

  lemma {:induction false} PatchedKept(lines: seq<string>, at: nat, hi: nat, body: seq<string>)
    requires at <= hi <= |lines|
    ensures Patched(lines, at, Tagged(' ', lines[at..hi]) + body) == Prepend(lines[at..hi], Patched(lines, hi, body))
    decreases |lines| - at
  {
    hide Patched, Prepend, Tagged;
    if at == hi {
      assert Tagged(' ', lines[at..hi]) + body == body;
      PrependNothing(Patched(lines, hi, body));
    } else {
      var rest := Tagged(' ', lines[at + 1..hi]) + body;
      assert lines[at..hi][1..] == lines[at + 1..hi];
      TaggedTail(' ', lines[at..hi]);
      assert Tagged(' ', lines[at..hi]) + body == [[' '] + lines[at]] + rest;
      PatchedFirst(lines, at, ' ', lines[at], rest);
      PatchedKept(lines, at + 1, hi, body);
      PrependTwice([lines[at]], lines[at + 1..hi], Patched(lines, hi, body));
      assert [lines[at]] + lines[at + 1..hi] == lines[at..hi];
    }
  }

  lemma {:induction false} PatchedRemoved(lines: seq<string>, at: nat, hi: nat, body: seq<string>)
    requires at <= hi <= |lines|
    ensures Patched(lines, at, Tagged('-', lines[at..hi]) + body) == Patched(lines, hi, body)
    decreases |lines| - at
  {
    hide Patched, Prepend, Tagged;
    if at == hi {
      assert Tagged('-', lines[at..hi]) + body == body;
    } else {
      var rest := Tagged('-', lines[at + 1..hi]) + body;
      assert lines[at..hi][1..] == lines[at + 1..hi];
      TaggedTail('-', lines[at..hi]);
      assert Tagged('-', lines[at..hi]) + body == [['-'] + lines[at]] + rest;
      PatchedFirst(lines, at, '-', lines[at], rest);
      PatchedRemoved(lines, at + 1, hi, body);
    }
  }

  lemma {:induction false} PatchedAdded(lines: seq<string>, at: nat, added: seq<string>, body: seq<string>)
    requires at <= |lines|
    ensures Patched(lines, at, Tagged('+', added) + body) == Prepend(added, Patched(lines, at, body))
    decreases |added|
  {
    hide Patched, Prepend, Tagged;
    if added == [] {
      assert Tagged('+', added) + body == body;
      PrependNothing(Patched(lines, at, body));
    } else {
      var rest := Tagged('+', added[1..]) + body;
      TaggedTail('+', added);
      assert Tagged('+', added) + body == [['+'] + added[0]] + rest;
      PatchedFirst(lines, at, '+', added[0], rest);
      PatchedAdded(lines, at, added[1..], body);
      PrependTwice([added[0]], added[1..], Patched(lines, at, body));
      assert [added[0]] + added[1..] == added;
    }
  }

  lemma PatchedNothing(lines: seq<string>, at: nat)
    requires at <= |lines|
    ensures Patched(lines, at, []) == Some(lines[at..])
  {
  }

  lemma PatchedBody(was: seq<string>, start: nat, prefix: nat, wasEnd: nat, hunkEnd: nat, added: seq<string>)
    requires start <= prefix <= wasEnd <= hunkEnd <= |was|
    ensures Patched(was, start, Body(was[start..prefix], was[prefix..wasEnd], added, was[wasEnd..hunkEnd])) ==
            Prepend(was[start..prefix], Prepend(added, Prepend(was[wasEnd..hunkEnd], Some(was[hunkEnd..]))))
  {
    hide Patched, Prepend, Tagged;
    var kept := Tagged(' ', was[wasEnd..hunkEnd]);
    var plus := Tagged('+', added);
    var minus := Tagged('-', was[prefix..wasEnd]);
    assert kept == kept + [];
    assert Body(was[start..prefix], was[prefix..wasEnd], added, was[wasEnd..hunkEnd]) ==
           Tagged(' ', was[start..prefix]) + (minus + (plus + kept));
    PatchedKept(was, start, prefix, minus + (plus + kept));
    PatchedRemoved(was, prefix, wasEnd, plus + kept);
    PatchedAdded(was, wasEnd, added, kept);
    PatchedKept(was, wasEnd, hunkEnd, []);
    PatchedNothing(was, hunkEnd);
  }

  /** Applying the hunk to the old lines gives exactly the new lines. */
  lemma HunkPatches(was: seq<string>, now: seq<string>)
    ensures ApplyHunk(was, MakeHunk(was, now)) == Some(now)
  {
    hide Patched, Prepend, Body, CommonFrom, CommonEnd;
    var prefix := CommonFrom(was, now, 0);
    var common := CommonEnd(was, now, prefix, 0);
    var h, end := HunkBetween(was, now, prefix, common), |was| - common;
    assert was[|was|..] == now[|now|..];
    CommonFromShared(was, now, 0);
    CommonEndShared(was, now, prefix, 0);
    PatchedBody(was, h.start, prefix, end, h.start + h.oldCount, now[prefix..|now| - common]);
    Reassembled(was, now, h.start, prefix, end, |now| - common, h.start + h.oldCount);
  }

  lemma Reassembled(was: seq<string>, now: seq<string>, start: nat, prefix: nat, wasEnd: nat, nowEnd: nat, hunkEnd: nat)
    requires start <= prefix <= wasEnd <= hunkEnd <= |was| && prefix <= nowEnd <= |now|
    requires was[0..prefix] == now[0..prefix] && was[wasEnd..] == now[nowEnd..]
    ensures Prepend(was[..start], Prepend(was[start..prefix],
            Prepend(now[prefix..nowEnd], Prepend(was[wasEnd..hunkEnd], Some(was[hunkEnd..]))))) == Some(now)
  {
    assert was[wasEnd..hunkEnd] + was[hunkEnd..] == was[wasEnd..];
    assert was[..start] + was[start..prefix] == was[0..prefix];
    var mid := now[prefix..nowEnd];
    assert was[..start] + (was[start..prefix] + (mid + was[wasEnd..])) == was[..start] + was[start..prefix] + mid + was[wasEnd..];
    assert now == now[0..prefix] + mid + now[nowEnd..];
  }

  // ----- The header and the counts -------------------------------------------------------

  lemma {:induction false} CountTagged(tag: char, lines: seq<string>, c: char)
    ensures CountStart(Tagged(tag, lines), [c]) == if tag == c then |lines| else 0
  {
    if lines != [] {
      var t := Tagged(tag, lines);
      assert t[..|t| - 1] == Tagged(tag, lines[..|lines| - 1]);
      CountTagged(tag, lines[..|lines| - 1], c);
      assert t[|t| - 1][0] == tag;
    }
  }

  lemma {:induction false} CountConcat(a: seq<string>, b: seq<string>, marker: string)
    ensures CountStart(a + b, marker) == CountStart(a, marker) + CountStart(b, marker)
    decreases |b|
  {
    if b == [] {
      assert a + b == a;
    } else {
      assert (a + b)[..|a + b| - 1] == a + b[..|b| - 1];
      CountConcat(a, b[..|b| - 1], marker);
    }
  }

  lemma CountParts(front: seq<string>, removed: seq<string>, added: seq<string>, tail: seq<string>, c: char)
    ensures CountStart(Body(front, removed, added, tail), [c]) ==
            (if c == ' ' then |front| + |tail| else 0) + (if c == '-' then |removed| else 0) +
            (if c == '+' then |added| else 0)
  {
    hide CountStart, Tagged;
    var p, q, r, s := Tagged(' ', front), Tagged('-', removed), Tagged('+', added), Tagged(' ', tail);
    CountConcat(p + q + r, s, [c]);
    CountConcat(p + q, r, [c]);
    CountConcat(p, q, [c]);
    CountTagged(' ', front, c);
    CountTagged('-', removed, c);
    CountTagged('+', added, c);
    CountTagged(' ', tail, c);
  }

  /** The shape of a hunk: three lines of context on each side, or all there are, and between them removed
      and added lines that share neither their first nor their last line. */
  lemma HunkShape(was: seq<string>, now: seq<string>)
    returns (front: seq<string>, removed: seq<string>, added: seq<string>, tail: seq<string>)
    ensures MakeHunk(was, now).body == Body(front, removed, added, tail)
    ensures |front| <= 3 && (|front| < 3 ==> MakeHunk(was, now).start == 0)
    ensures |tail| <= 3 && (|tail| < 3 ==> MakeHunk(was, now).start + MakeHunk(was, now).oldCount == |was|)
    ensures removed != [] && added != [] ==>
              removed[0] != added[0] && removed[|removed| - 1] != added[|added| - 1]
    ensures var h := MakeHunk(was, now);
            h.oldCount == |front| + |removed| + |tail| && h.newCount == |front| + |added| + |tail| &&
            |added| - |removed| == |now| - |was|
  {
    hide CommonFrom, CommonEnd, Body;
    var prefix := CommonFrom(was, now, 0);
    var common := CommonEnd(was, now, prefix, 0);
    var h, end := HunkBetween(was, now, prefix, common), |was| - common;
    front, removed := was[h.start..prefix], was[prefix..end];
    added, tail := now[prefix..|now| - common], was[end..h.start + h.oldCount];
  }

  /** The header counts the context and removed lines, and the context and added lines; added less
      removed lines is the change in length. */
  lemma HeaderCounts(was: seq<string>, now: seq<string>)
    ensures var h := MakeHunk(was, now);
            h.oldCount == CountStart(h.body, " ") + CountStart(h.body, "-") &&
            h.newCount == CountStart(h.body, " ") + CountStart(h.body, "+") &&
            CountStart(h.body, "+") - CountStart(h.body, "-") == |now| - |was|
  {
    hide MakeHunk, Body, CountStart;
    var front, removed, added, tail := HunkShape(was, now);
    CountParts(front, removed, added, tail, ' ');
    CountParts(front, removed, added, tail, '-');
    CountParts(front, removed, added, tail, '+');
  }

  // ----- Reading a diff back -------------------------------------------------------------

  datatype DiffStats = DiffStats(hunks: nat, added: nat, removed: nat)

  function Analyzed(lines: seq<string>): DiffStats
  {
    if lines == [] then DiffStats(0, 0, 0)
    else
      var s, line := Analyzed(lines[..|lines| - 1]), lines[|lines| - 1];
      if StartsWith(line, "@@") then s.(hunks := s.hunks + 1)
      else if line != [] && line[0] == '+' && !StartsWith(line, "+++") then s.(added := s.added + 1)
      else if line != [] && line[0] == '-' && !StartsWith(line, "---") then s.(removed := s.removed + 1)
      else s
  }

  /** analyze_diff */
  method AnalyzeDiff(diff: string) returns (stats: DiffStats)
    ensures stats == Analyzed(GetLines(diff))
  {
    hide StartsWith, GetLines;
    var lines := GetLines(diff);
    var hunks, added, removed := 0, 0, 0;
    for i := 0 to |lines|
      invariant Analyzed(lines[..i]) == DiffStats(hunks, added, removed)
    {
      var line := lines[i];
      assert lines[..i + 1][..i] == lines[..i];
      if StartsWith(line, "@@") {
        hunks := hunks + 1;
      } else if line != [] && line[0] == '+' && !StartsWith(line, "+++") {
        added := added + 1;
      } else if line != [] && line[0] == '-' && !StartsWith(line, "---") {
        removed := removed + 1;
      }
    }
    assert lines[..|lines|] == lines;
    stats := DiffStats(hunks, added, removed);
  }

  lemma {:induction false} AnalyzedCounts(lines: seq<string>)
    ensures var s := Analyzed(lines);
            s.hunks == CountStart(lines, "@@") &&
            s.added + CountStart(lines, "+++") == CountStart(lines, "+") &&
            s.removed + CountStart(lines, "---") == CountStart(lines, "-")
  {
    if lines != [] {
      AnalyzedCounts(lines[..|lines| - 1]);
      LineMarkers(lines[|lines| - 1]);
    }
  }

  lemma LineMarkers(line: string)
    ensures StartsWith(line, "+") <==> line != [] && line[0] == '+'
    ensures StartsWith(line, "-") <==> line != [] && line[0] == '-'
    ensures StartsWith(line, "+++") ==> line != [] && line[0] == '+'
    ensures StartsWith(line, "---") ==> line != [] && line[0] == '-'
    ensures StartsWith(line, "@@") ==> line != [] && line[0] == '@'
  {
    assert "+++"[0] == '+' && "---"[0] == '-' && "@@"[0] == '@';
  }

  ghost predicate OneLines(lines: seq<string>)
  {
    forall i :: 0 <= i < |lines| ==> OneLine(lines[i])
  }

  /** The lines that are read back from written ones, some of which hold newlines of their own. */
  function SplitEach(lines: seq<string>): seq<string>
  {
    if lines == [] then [] else SplitEach(lines[..|lines| - 1]) + Pieces(lines[|lines| - 1])
  }

  lemma {:induction false} SplitEachConcat(a: seq<string>, b: seq<string>)
    ensures SplitEach(a + b) == SplitEach(a) + SplitEach(b)
    decreases |b|
  {
    hide Pieces;
    if b == [] {
      assert a + b == a;
    } else {
      assert (a + b)[..|a + b| - 1] == a + b[..|b| - 1];
      SplitEachConcat(a, b[..|b| - 1]);
    }
  }

  lemma {:induction false} SplitEachOneLine(lines: seq<string>)
    requires OneLines(lines)
    ensures SplitEach(lines) == lines
  {
    hide Pieces, OneLine;
    if lines != [] {
      SplitEachOneLine(lines[..|lines| - 1]);
      OnePiece(lines[|lines| - 1]);
      assert lines == lines[..|lines| - 1] + [lines[|lines| - 1]];
    }
  }

  lemma {:induction false} FlatPieces(lines: seq<string>)
    ensures Pieces(Flat(lines)) == SplitEach(lines) + [[]]
  {
    hide Pieces;
    if lines == [] {
      PiecesNil();
    } else {
      var front, last := lines[..|lines| - 1], lines[|lines| - 1];
      FlatPieces(front);
      PiecesBehind(Flat(front), SplitEach(front), last);
      PiecesChar(Flat(front) + last, '\n');
    }
  }

  /** Lines written one by one are read back as they were, split where they hold newlines. */
  lemma FlatReads(lines: seq<string>)
    ensures GetLines(Flat(lines)) == SplitEach(lines)
  {
    hide Pieces, Flat, SplitEach;
    FlatPieces(lines);
    assert (SplitEach(lines) + [[]])[..|SplitEach(lines)|] == SplitEach(lines);
  }

  lemma {:induction false} DecimalOneLine(n: nat)
    ensures OneLine(Decimal(n))
  {
    assert Digits(Decimal(n));
  }

  lemma HeaderOneLine(h: Hunk)
    ensures OneLine(HunkHeader(h)) && StartsWith(HunkHeader(h), "@@")
    ensures HunkHeader(h)[0] == '@'
  {
    DecimalOneLine(h.start + 1);
    DecimalOneLine(h.oldCount);
    DecimalOneLine(h.newCount);
    assert HunkHeader(h)[..2] == "@@";
    AtSlice(HunkHeader(h), 0, "@@");
  }

  lemma TaggedOneLine(tag: char, lines: seq<string>)
    requires tag != '\n' && OneLines(lines)
    ensures OneLines(Tagged(tag, lines))
  {
  }

  lemma PartsOneLine(front: seq<string>, removed: seq<string>, added: seq<string>, tail: seq<string>)
    requires OneLines(front) && OneLines(removed) && OneLines(added) && OneLines(tail)
    ensures OneLines(Body(front, removed, added, tail))
  {
    hide OneLine, Tagged;
    TaggedOneLine(' ', front);
    TaggedOneLine('-', removed);
    TaggedOneLine('+', added);
    TaggedOneLine(' ', tail);
  }

  lemma SliceOneLine(lines: seq<string>, lo: nat, hi: nat)
    requires lo <= hi <= |lines| && OneLines(lines)
    ensures OneLines(lines[lo..hi])
  {
    hide OneLine;
  }

  lemma BodyOneLine(was: seq<string>, now: seq<string>)
    requires OneLines(was) && OneLines(now)
    ensures OneLines(MakeHunk(was, now).body)
  {
    hide CommonFrom, CommonEnd, Body, OneLines;
    var prefix := CommonFrom(was, now, 0);
    var common := CommonEnd(was, now, prefix, 0);
    var h, end := HunkBetween(was, now, prefix, common), |was| - common;
    SliceOneLine(was, h.start, prefix);
    SliceOneLine(was, prefix, end);
    SliceOneLine(now, prefix, |now| - common);
    SliceOneLine(was, end, h.start + h.oldCount);
    PartsOneLine(was[h.start..prefix], was[prefix..end], now[prefix..|now| - common], was[end..h.start + h.oldCount]);
  }

  lemma DocOneLine(content: string)
    ensures OneLines(DocLines(content))
  {
    hide Pieces, StripCR;
    PiecesClean(StripCR(content));
  }

  lemma Single(line: string, marker: string)
    ensures CountStart([line], marker) == if StartsWith(line, marker) then 1 else 0
  {
    assert [line][..0] == [];
  }

  /** A one-line text in front of a path joins the path's first piece. */
  lemma {:induction false} PiecesOfPrefixed(front: string, path: string)
    requires OneLine(front)
    ensures Pieces(front + path) == [front + Pieces(path)[0]] + Pieces(path)[1..]
    decreases |path|
  {
    hide Pieces;
    if path == [] {
      PiecesNil();
      OnePiece(front);
      assert front + path == front && front + [] == front;
    } else {
      var base, c := path[..|path| - 1], path[|path| - 1];
      PiecesOfPrefixed(front, base);
      assert path == base + [c] && front + path == front + base + [c];
      PiecesChar(base, c);
      PiecesChar(front + base, c);
      PushPrefixed(front, Pieces(base), c);
    }
  }

  lemma PushPrefixed(front: string, pieces: seq<string>, c: char)
    requires pieces != []
    ensures Push([front + pieces[0]] + pieces[1..], c) == [front + Push(pieces, c)[0]] + Push(pieces, c)[1..]
  {
    if c != '\n' && |pieces| == 1 {
      assert front + pieces[0] + [c] == front + (pieces[0] + [c]);
    }
  }

  lemma MarkersOfPaths(path: string)
    ensures StartsWith("--- a/" + path, "-") && StartsWith("--- a/" + path, "---")
    ensures StartsWith("+++ b/" + path, "+") && StartsWith("+++ b/" + path, "+++")
    ensures forall m :: m in {"@@", "+", "+++"} ==> !StartsWith("--- a/" + path, m)
    ensures forall m :: m in {"@@", "-", "---"} ==> !StartsWith("+++ b/" + path, m)
  {
    var a, b := "--- a/" + path, "+++ b/" + path;
    assert a[0] == '-' && a[1] == '-' && a[2] == '-' && b[0] == '+' && b[1] == '+' && b[2] == '+';
    LineMarkers(a);
    LineMarkers(b);
  }

  /** The lines of a diff of a file that changes, as they are read back: the two head lines, each with
      the further lines of a path that holds newlines, the hunk header, and the hunk. */
  lemma DiffReads(path: string, was: string, now: string)
    requires was != now
    ensures var h, p := MakeHunk(DocLines(was), DocLines(now)), Pieces(path);
            GetLines(ContextDiff(path, was, now)) ==
            (["--- a/" + p[0]] + p[1..]) + (["+++ b/" + p[0]] + p[1..]) + [HunkHeader(h)] + h.body
  {
    hide DocLines, MakeHunk, HunkHeader, GetLines, Flat, Pieces, SplitEach, OneLines;
    var h := MakeHunk(DocLines(was), DocLines(now));
    var a, b := "--- a/" + path, "+++ b/" + path;
    assert DiffLines(path, was, now) == [a] + [b] + [HunkHeader(h)] + h.body;
    FlatReads(DiffLines(path, was, now));
    SplitEachConcat([a] + [b] + [HunkHeader(h)], h.body);
    SplitEachConcat([a] + [b], [HunkHeader(h)]);
    SplitEachConcat([a], [b]);
    SplitOne(a);
    SplitOne(b);
    SplitOne(HunkHeader(h));
    HeaderOneLine(h);
    OnePiece(HunkHeader(h));
    DocOneLine(was);
    DocOneLine(now);
    BodyOneLine(DocLines(was), DocLines(now));
    SplitEachOneLine(h.body);
    PiecesOfPrefixed("--- a/", path);
    PiecesOfPrefixed("+++ b/", path);
  }

  lemma SplitOne(line: string)
    ensures SplitEach([line]) == Pieces(line)
  {
    hide Pieces;
    assert [line][..0] == [];
    assert [] + Pieces(line) == Pieces(line);
  }

  /** What a session counts in a diff of a file that changes: one hunk, the added lines that do not
      start with "++", and the removed lines that do not start with "--"; besides, for a path that
      holds newlines, whatever its further lines look like, twice. */
  lemma DiffIsCounted(path: string, was: string, now: string)
    requires was != now
    ensures var stats, body := Analyzed(GetLines(ContextDiff(path, was, now))), MakeHunk(DocLines(was), DocLines(now)).body;
            var more := Pieces(path)[1..];
            stats.hunks == 1 + 2 * CountStart(more, "@@") &&
            stats.added == CountStart(body, "+") - CountStart(body, "+++") + 2 * (CountStart(more, "+") - CountStart(more, "+++")) &&
            stats.removed == CountStart(body, "-") - CountStart(body, "---") + 2 * (CountStart(more, "-") - CountStart(more, "---"))
  {
    hide DocLines, MakeHunk, HunkHeader, GetLines, CountStart, StartsWith, Analyzed, Flat, ContextDiff, Pieces;
    var h, p := MakeHunk(DocLines(was), DocLines(now)), Pieces(path);
    var a, b, more := "--- a/" + p[0], "+++ b/" + p[0], p[1..];
    var lines := ([a] + more) + ([b] + more) + [HunkHeader(h)] + h.body;
    DiffReads(path, was, now);
    AnalyzedCounts(lines);
    MarkersOfPaths(p[0]);
    HeaderOneLine(h);
    LineMarkers(HunkHeader(h));
    NoHunkMarks(DocLines(was), DocLines(now));
    forall m | m in {"@@", "+", "-", "+++", "---"}
      ensures CountStart(lines, m) ==
              (if StartsWith(a, m) then 1 else 0) + (if StartsWith(b, m) then 1 else 0) +
              (if StartsWith(HunkHeader(h), m) then 1 else 0) + 2 * CountStart(more, m) + CountStart(h.body, m)
    {
      CountAll(a, b, more, HunkHeader(h), h.body, m);
    }
  }

  /** For a path without newlines, added less removed lines as counted is the change in line count
      exactly when as many lines are missed on both sides. */
  lemma DiffBalance(path: string, was: string, now: string)
    requires OneLine(path) && was != now
    ensures var stats, body := Analyzed(GetLines(ContextDiff(path, was, now))), MakeHunk(DocLines(was), DocLines(now)).body;
            stats.hunks == 1 &&
            (stats.added - stats.removed == |DocLines(now)| - |DocLines(was)| <==>
             CountStart(body, "+++") == CountStart(body, "---"))
  {
    hide DocLines, MakeHunk, GetLines, CountStart, Analyzed, ContextDiff, Pieces;
    DiffIsCounted(path, was, now);
    HeaderCounts(DocLines(was), DocLines(now));
    OnePiece(path);
    assert [path][1..] == [];
    forall m { CountNothing(m); }
  }

  lemma CountNothing(m: string)
    ensures CountStart([], m) == 0
  {
  }

  lemma CountAll(a: string, b: string, more: seq<string>, c: string, body: seq<string>, m: string)
    ensures CountStart(([a] + more) + ([b] + more) + [c] + body, m) ==
            (if StartsWith(a, m) then 1 else 0) + (if StartsWith(b, m) then 1 else 0) +
            (if StartsWith(c, m) then 1 else 0) + 2 * CountStart(more, m) + CountStart(body, m)
  {
    hide CountStart, StartsWith;
    CountConcat(([a] + more) + ([b] + more) + [c], body, m);
    CountConcat(([a] + more) + ([b] + more), [c], m);
    CountConcat([a] + more, [b] + more, m);
    CountConcat([a], more, m);
    CountConcat([b], more, m);
    Single(a, m);
    Single(b, m);
    Single(c, m);
  }

  lemma {:induction false} CountNever(lines: seq<string>)
    requires forall i :: 0 <= i < |lines| ==> lines[i] != [] && lines[i][0] != '@'
    ensures CountStart(lines, "@@") == 0
  {
    if lines != [] {
      LineMarkers(lines[|lines| - 1]);
      CountNever(lines[..|lines| - 1]);
    }
  }

  lemma NoHunkMarks(was: seq<string>, now: seq<string>)
    ensures CountStart(MakeHunk(was, now).body, "@@") == 0
  {
    hide MakeHunk, CountStart;
    var front, removed, added, tail := HunkShape(was, now);
    CountNever(Body(front, removed, added, tail));
  }

  // ----- The loops -----------------------------------------------------------------------

  method Append(out: string, tag: char, lines: seq<string>, lo: nat, hi: nat) returns (text: string)
    requires lo <= hi <= |lines|
    ensures text == out + Flat(Tagged(tag, lines[lo..hi]))
  {
    hide Tagged, Flat;
    text := out;
    FlatNothing();
    assert Tagged(tag, lines[lo..lo]) == [];
    assert out + [] == out;
    for i := lo to hi
      invariant text == out + Flat(Tagged(tag, lines[lo..i]))
    {
      TaggedStep(tag, lines, lo, i);
      FlatSnoc(Tagged(tag, lines[lo..i]), [tag] + lines[i]);
      Regroup(out, Flat(Tagged(tag, lines[lo..i])), [tag] + lines[i]);
      text := text + ([tag] + lines[i]) + "\n";
    }
  }

  lemma TaggedStep(tag: char, lines: seq<string>, lo: nat, i: nat)
    requires lo <= i < |lines|
    ensures Tagged(tag, lines[lo..i + 1]) == Tagged(tag, lines[lo..i]) + [[tag] + lines[i]]
  {
  }

  lemma FlatBody(front: seq<string>, removed: seq<string>, added: seq<string>, tail: seq<string>)
    ensures Flat(Body(front, removed, added, tail)) ==
            Flat(Tagged(' ', front)) + Flat(Tagged('-', removed)) + Flat(Tagged('+', added)) + Flat(Tagged(' ', tail))
  {
    hide Flat, Tagged;
    var p, q, r, s := Tagged(' ', front), Tagged('-', removed), Tagged('+', added), Tagged(' ', tail);
    FlatConcat(p + q + r, s);
    FlatConcat(p + q, r);
    FlatConcat(p, q);
  }

  lemma FlatHead(a: string, b: string, c: string, body: seq<string>)
    ensures Flat([a, b] + ([c] + body)) == a + "\n" + b + "\n" + c + "\n" + Flat(body)
    ensures Flat([a, b] + [c]) == a + "\n" + b + "\n" + c + "\n"
  {
    hide Flat;
    FlatNothing();
    FlatSnoc([], a);
    FlatSnoc([a], b);
    FlatSnoc([a, b], c);
    assert [] + [a] == [a] && [a] + [b] == [a, b];
    assert [] + a + "\n" == a + "\n";
    FlatConcat([a, b] + [c], body);
    assert [a, b] + ([c] + body) == [a, b] + [c] + body;
  }

  lemma AppendAll(head: string, p: string, q: string, r: string, s: string)
    ensures head + p + q + r + s == head + (p + q + r + s)
  {
  }

  /** The loop over the lines both files begin with. */
  method FindPrefix(was: seq<string>, now: seq<string>) returns (prefix: nat)
    ensures prefix == CommonFrom(was, now, 0)
  {
    hide CommonFrom;
    prefix := 0;
    while prefix < |was| && prefix < |now| && was[prefix] == now[prefix]
      invariant prefix <= |was| && prefix <= |now|
      invariant CommonFrom(was, now, 0) == CommonFrom(was, now, prefix)
    {
      CommonFromStep(was, now, prefix);
      prefix := prefix + 1;
    }
    CommonFromStep(was, now, prefix);
  }

  /** The loop over the lines both files end with. */
  method FindEnds(was: seq<string>, now: seq<string>, prefix: nat) returns (wasEnd: nat, nowEnd: nat)
    requires prefix <= |was| && prefix <= |now|
    ensures var common := CommonEnd(was, now, prefix, 0); wasEnd == |was| - common && nowEnd == |now| - common
  {
    hide CommonEnd;
    wasEnd, nowEnd := |was|, |now|;
    while wasEnd > prefix && nowEnd > prefix && was[wasEnd - 1] == now[nowEnd - 1]
      invariant prefix <= wasEnd <= |was| && prefix <= nowEnd <= |now|
      invariant |was| - wasEnd == |now| - nowEnd
      invariant CommonEnd(was, now, prefix, 0) == CommonEnd(was, now, prefix, |was| - wasEnd)
    {
      CommonEndStep(was, now, prefix, |was| - wasEnd);
      wasEnd, nowEnd := wasEnd - 1, nowEnd - 1;
    }
    CommonEndStep(was, now, prefix, |was| - wasEnd);
  }

  /** The loops that write the hunk. */
  method WriteHunk(head: string, was: seq<string>, now: seq<string>, prefix: nat, wasEnd: nat, nowEnd: nat)
    returns (out: string)
    requires prefix <= wasEnd <= |was| && prefix <= nowEnd <= |now| && |was| - wasEnd == |now| - nowEnd
    ensures var h := HunkBetween(was, now, prefix, |was| - wasEnd);
            out == head + HunkHeader(h) + "\n" + Flat(h.body)
  {
    hide HunkHeader, Flat, Body, Tagged;
    var start := if prefix > CONTEXT then prefix - CONTEXT else 0;
    var wasHunkEnd, nowHunkEnd := Min(|was|, wasEnd + CONTEXT), Min(|now|, nowEnd + CONTEXT);
    var h := Hunk(start, wasHunkEnd - start, nowHunkEnd - start, []);
    out := head + HunkHeader(h) + "\n";
    ghost var top := out;
    out := Append(out, ' ', was, start, Min(prefix, wasHunkEnd));
    out := Append(out, '-', was, prefix, wasEnd);
    out := Append(out, '+', now, prefix, nowEnd);
    out := Append(out, ' ', was, wasEnd, wasHunkEnd);
    FlatBody(was[start..prefix], was[prefix..wasEnd], now[prefix..nowEnd], was[wasEnd..wasHunkEnd]);
    SameHeader(h, HunkBetween(was, now, prefix, |was| - wasEnd));
    AppendAll(top, Flat(Tagged(' ', was[start..prefix])), Flat(Tagged('-', was[prefix..wasEnd])),
              Flat(Tagged('+', now[prefix..nowEnd])), Flat(Tagged(' ', was[wasEnd..wasHunkEnd])));
  }

  method MakeContextDiff(path: string, was: string, now: string) returns (out: string)
    ensures out == ContextDiff(path, was, now)
  {
    hide DocLines, HunkHeader, Flat, Body, CommonFrom, CommonEnd, HunkBetween;
    out := "--- a/" + path + "\n" + ("+++ b/" + path) + "\n";
    if was == now {
      FlatHead("--- a/" + path, "+++ b/" + path, "@@ no changes @@", []);
      out := out + "@@ no changes @@" + "\n";
      return;
    }
    var wasLines, _ := MakeDocument(was);
    var nowLines, _ := MakeDocument(now);
    var prefix := FindPrefix(wasLines, nowLines);
    var wasEnd, nowEnd := FindEnds(wasLines, nowLines, prefix);
    out := WriteHunk(out, wasLines, nowLines, prefix, wasEnd, nowEnd);
    ghost var h := MakeHunk(wasLines, nowLines);
    FlatHead("--- a/" + path, "+++ b/" + path, HunkHeader(h), h.body);
  }

  lemma SameHeader(a: Hunk, b: Hunk)
    requires a.start == b.start && a.oldCount == b.oldCount && a.newCount == b.newCount
    ensures HunkHeader(a) == HunkHeader(b)
  {
  }

  lemma CommonFromStep(a: seq<string>, b: seq<string>, i: nat)
    requires i <= |a| && i <= |b|
    ensures CommonFrom(a, b, i) ==
            if i < |a| && i < |b| && a[i] == b[i] then CommonFrom(a, b, i + 1) else i
  {
  }

  lemma CommonEndStep(a: seq<string>, b: seq<string>, lo: nat, n: nat)
    requires lo + n <= |a| && lo + n <= |b|
    ensures CommonEnd(a, b, lo, n) ==
            if lo + n < |a| && lo + n < |b| && a[|a| - n - 1] == b[|b| - n - 1] then CommonEnd(a, b, lo, n + 1) else n
  {
  }

  /** An added line that is not counted: one that starts with two plus signs itself. */
  lemma PlusPlusMissed()
    ensures var stats := Analyzed(GetLines(ContextDiff("f", "", "++x\n")));
            stats.added == 0 && |DocLines("++x\n")| == |DocLines("")| + 1
  {
    hide MakeHunk, Analyzed, GetLines, ContextDiff, DocLines;
    PlusPlusLines();
    DiffIsCounted("f", "", "++x\n");
    PlusPlusHunk();
    OnePiece("f");
    assert ["f"][1..] == [];
    forall m { CountNothing(m); }
    Single("+++x", "+");
    Single("+++x", "+++");
  }

  lemma PlusPlusLines()
    ensures DocLines("") == [] && DocLines("++x\n") == ["++x"]
  {
    hide Pieces, StripCR;
    StripNil();
    PiecesNil();
    StripCROfClean("++x\n");
    OnePiece("++x");
    PiecesChar("++x", '\n');
    assert "++x" + ['\n'] == "++x\n";
    assert [""][..0] == [] && (["++x"] + [""])[..1] == ["++x"];
  }

  lemma PlusPlusHunk()
    ensures MakeHunk([], ["++x"]).body == ["+++x"]
    ensures StartsWith("+++x", "+") && StartsWith("+++x", "+++")
  {
    assert ["++x"][0..1] == ["++x"];
    assert ['+'] + "++x" == "+++x";
    assert "+++x"[..3] == "+++" && "+++x"[..1] == "+";
    AtSlice("+++x", 0, "+++");
    AtSlice("+++x", 0, "+");
  }
}

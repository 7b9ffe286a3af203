/** Locating the target of an edit (session_service.cpp: locate_candidates, resolve_candidate). */
module Selectors {
  import opened Text
  import opened ChangeRecord

  datatype Range = Range(start: nat, end: nat, ordinal: nat)

  /** The last occurrence that starts at or before `pos` (std::string::rfind). */
  function RFind(text: string, s: string, pos: nat): (r: Option<nat>)
    ensures r.Some? ==> r.value <= pos && At(text, r.value, s)
    ensures r.None? ==> forall k :: 0 <= k <= pos ==> !At(text, k, s)
  {
    if At(text, pos, s) then Some(pos) else if pos == 0 then None else RFind(text, s, pos - 1)
  }

  /** The anchors of a match of the query that starts at `p`. */
  predicate Anchored(content: string, sel: Selector, p: nat)
  {
    (sel.anchorBefore != [] ==> RFind(content, sel.anchorBefore, p).Some?) &&
    (sel.anchorAfter != [] ==> Find(content, sel.anchorAfter, p + |sel.query|).Some?)
  }

  /** The loop of locate_candidates, with the candidates found so far. */
  function Locate(content: string, sel: Selector, pos: nat, found: seq<Range>): seq<Range>
    requires sel.query != []
    decreases |content| - pos
  {
    match Find(content, sel.query, pos)
    case None => found
    case Some(p) =>
      var end := p + |sel.query|;
      Locate(content, sel, end, if Anchored(content, sel, p) then found + [Range(p, end, |found| + 1)] else found)
  }

  function Candidates(content: string, sel: Selector): seq<Range>
  {
    if sel.query == [] then [] else Locate(content, sel, 0, [])
  }

  /** locate_candidates */
  method LocateCandidates(content: string, sel: Selector) returns (candidates: seq<Range>)
    ensures candidates == Candidates(content, sel)
  {
    candidates := [];
    if sel.query == [] { return; }
    var pos, ordinal := 0, 0;
    while true
      invariant ordinal == |candidates|
      invariant Candidates(content, sel) == Locate(content, sel, pos, candidates)
      decreases |content| - pos
    {
      hide At, Find, RFind;
      var hit := Find(content, sel.query, pos);
      FindBound(content, sel.query, pos);
      if hit.None? { break; }
      var p := hit.value;
      var end := p + |sel.query|;
      var allowed := true;
      if sel.anchorBefore != [] {
        allowed := RFind(content, sel.anchorBefore, p).Some?;
      }
      if allowed && sel.anchorAfter != [] {
        allowed := Find(content, sel.anchorAfter, end).Some?;
      }
      if allowed {
        ordinal := ordinal + 1;
        candidates := candidates + [Range(p, end, ordinal)];
      }
      pos := end;
    }
  }

  lemma FindBound(content: string, s: string, pos: nat)
    ensures Find(content, s, pos).Some? ==> pos <= Find(content, s, pos).value <= |content| - |s|
  {
  }

  /** resolve_candidate */
  function Resolve(content: string, sel: Selector): (r: Option<Range>)
  {
    var c := Candidates(content, sel);
    if c == [] || sel.occurrence == 0 || sel.occurrence > |c| then None
    else if sel.fromEnd then Some(c[|c| - sel.occurrence])
    else Some(c[sel.occurrence - 1])
  }

  // ----- What the candidates are ---------------------------------------------------------

  /** `p` starts inside one of the matches. */
  ghost predicate Covers(starts: seq<nat>, length: nat, p: nat)
  {
    exists i :: 0 <= i < |starts| && starts[i] <= p < starts[i] + length
  }

  ghost predicate Placed(content: string, query: string, pos: nat, starts: seq<nat>)
  {
    (forall i :: 0 <= i < |starts| ==> pos <= starts[i] && At(content, starts[i], query)) &&
    forall i, j :: 0 <= i < j < |starts| ==> starts[i] + |query| <= starts[j]
  }

  ghost predicate Complete(content: string, query: string, pos: nat, starts: seq<nat>)
  {
    forall p :: pos <= p && At(content, p, query) ==> Covers(starts, |query|, p)
  }

  /** The leftmost matches that do not overlap, said without the search: they stand in order, and
      every occurrence from `pos` on starts inside one of them. */
  ghost predicate Greedy(content: string, query: string, pos: nat, starts: seq<nat>)
  {
    Placed(content, query, pos, starts) && Complete(content, query, pos, starts)
  }

  function Matches(content: string, query: string, pos: nat): seq<nat>
    requires query != []
    decreases |content| - pos
  {
    match Find(content, query, pos)
    case None => []
    case Some(p) => [p] + Matches(content, query, p + |query|)
  }

  lemma CoversCons(first: nat, rest: seq<nat>, length: nat, p: nat)
    ensures Covers([first] + rest, length, p) <==> first <= p < first + length || Covers(rest, length, p)
  {
    var g := [first] + rest;
    if Covers(rest, length, p) {
      var i :| 0 <= i < |rest| && rest[i] <= p < rest[i] + length;
      assert g[i + 1] == rest[i];
    }
    if first <= p < first + length { assert g[0] == first; }
    if Covers(g, length, p) && !(first <= p < first + length) {
      var i :| 0 <= i < |g| && g[i] <= p < g[i] + length;
      assert g[i] == rest[i - 1];
    }
  }

  lemma PlacedCons(content: string, query: string, pos: nat, first: nat, rest: seq<nat>)
    requires pos <= first && At(content, first, query) && Placed(content, query, first + |query|, rest)
    ensures Placed(content, query, pos, [first] + rest)
  {
    hide At;
    var g := [first] + rest;
    assert forall i :: 1 <= i < |g| ==> g[i] == rest[i - 1];
  }

  lemma {:induction false} MatchesGreedy(content: string, query: string, pos: nat)
    requires query != []
    ensures Greedy(content, query, pos, Matches(content, query, pos))
    decreases |content| - pos
  {
    hide At, Find, Covers, Placed;
    match Find(content, query, pos)
    case None =>
      NoneGreedy(content, query, pos);
    case Some(first) =>
      FindBound(content, query, pos);
      FindAt(content, query, pos);
      var rest := Matches(content, query, first + |query|);
      MatchesGreedy(content, query, first + |query|);
      PlacedCons(content, query, pos, first, rest);
      forall p | pos <= p && At(content, p, query) ensures Covers([first] + rest, |query|, p) {
        FindSkips(content, query, pos, p);
        CoversCons(first, rest, |query|, p);
      }
  }

  lemma NoneGreedy(content: string, query: string, pos: nat)
    requires Find(content, query, pos) == None
    ensures Greedy(content, query, pos, [])
  {
    hide At, Find;
    forall p | pos <= p ensures !At(content, p, query) {
      if At(content, p, query) { FindSkips(content, query, pos, p); }
    }
  }

  lemma FindAt(content: string, s: string, pos: nat)
    ensures Find(content, s, pos).Some? ==> At(content, Find(content, s, pos).value, s)
  {
  }

  /** There is only one such list of matches. */
  lemma {:induction false} GreedyUnique(content: string, query: string, pos: nat, a: seq<nat>, b: seq<nat>)
    requires query != [] && Greedy(content, query, pos, a) && Greedy(content, query, pos, b)
    ensures a == b
    decreases |a|
  {
    hide Greedy, At, Placed;
    GreedyParts(content, query, pos, a);
    GreedyParts(content, query, pos, b);
    if a == [] {
      if b != [] { FirstStart(content, query, pos, b, a); }
    } else {
      FirstStart(content, query, pos, a, b);
      FirstStart(content, query, pos, b, a);
      GreedyTail(content, query, pos, a);
      GreedyTail(content, query, pos, b);
      GreedyUnique(content, query, a[0] + |query|, a[1..], b[1..]);
      assert a == [a[0]] + a[1..] && b == [b[0]] + b[1..];
    }
  }

  lemma GreedyParts(content: string, query: string, pos: nat, a: seq<nat>)
    requires Greedy(content, query, pos, a)
    ensures Placed(content, query, pos, a) && (a != [] ==> pos <= a[0])
  {
  }

  /** No complete list starts later than a placed one. */
  lemma FirstStart(content: string, query: string, pos: nat, a: seq<nat>, b: seq<nat>)
    requires a != [] && Placed(content, query, pos, a) && Greedy(content, query, pos, b)
    ensures b != [] && b[0] <= a[0]
  {
    hide At;
    assert Covers(b, |query|, a[0]);
    var i :| 0 <= i < |b| && b[i] <= a[0] < b[i] + |query|;
  }

  lemma GreedyTail(content: string, query: string, pos: nat, a: seq<nat>)
    requires query != [] && a != [] && Greedy(content, query, pos, a)
    ensures Greedy(content, query, a[0] + |query|, a[1..])
  {
    hide At, Covers;
    forall p | a[0] + |query| <= p && At(content, p, query) ensures Covers(a[1..], |query|, p) {
      assert a == [a[0]] + a[1..];
      CoversCons(a[0], a[1..], |query|, p);
    }
  }

  /** What the anchors ask of a match at `p`: one text somewhere up to where it starts, the other somewhere
      from where it ends. */
  ghost predicate Flanked(content: string, sel: Selector, p: nat)
  {
    (sel.anchorBefore == "" || exists q: nat :: q <= p && At(content, q, sel.anchorBefore)) &&
    (sel.anchorAfter == "" || exists q: nat :: q >= p + |sel.query| && At(content, q, sel.anchorAfter))
  }

  lemma AnchoredIsFlanked(content: string, sel: Selector, p: nat)
    ensures Anchored(content, sel, p) <==> Flanked(content, sel, p)
  {
    hide At, Find, RFind;
    FindAt(content, sel.anchorAfter, p + |sel.query|);
    FindFrom(content, sel.anchorAfter, p + |sel.query|);
  }

  lemma FindFrom(content: string, s: string, pos: nat)
    ensures Find(content, s, pos).Some? <==> exists q: nat :: q >= pos && At(content, q, s)
  {
    hide At, Find;
    FindAt(content, s, pos);
    if q: nat :| q >= pos && At(content, q, s) { FindSkips(content, s, pos, q); }
  }

  /** The flanked ones of some matches, numbered from `n + 1` on. */
  ghost function Numbered(content: string, sel: Selector, starts: seq<nat>, n: nat): seq<Range>
  {
    if starts == [] then []
    else if Flanked(content, sel, starts[0]) then
      [Range(starts[0], starts[0] + |sel.query|, n + 1)] + Numbered(content, sel, starts[1..], n + 1)
    else Numbered(content, sel, starts[1..], n)
  }

  lemma NumberedStep(content: string, sel: Selector, starts: seq<nat>, n: nat) returns (m: nat)
    requires starts != []
    ensures m == if Flanked(content, sel, starts[0]) then 1 else 0
    ensures var c, rest := Numbered(content, sel, starts, n), Numbered(content, sel, starts[1..], n + m);
            |c| == m + |rest| && (m == 1 ==> c[0] == Range(starts[0], starts[0] + |sel.query|, n + 1)) &&
            forall i :: m <= i < |c| ==> c[i] == rest[i - m]
  {
    hide Flanked;
    m := if Flanked(content, sel, starts[0]) then 1 else 0;
  }

  /** The numbers count up, and each stands for a flanked match. */
  lemma {:induction false} NumberedAt(content: string, sel: Selector, starts: seq<nat>, n: nat, i: nat)
    requires i < |Numbered(content, sel, starts, n)|
    ensures var r := Numbered(content, sel, starts, n)[i];
            r.ordinal == n + i + 1 && r.start in starts && Flanked(content, sel, r.start) && r.end == r.start + |sel.query|
  {
    hide Flanked, Numbered;
    if starts == [] {
      NumberedNothing(content, sel, n);
    } else {
      var m := NumberedStep(content, sel, starts, n);
      if i >= m { NumberedAt(content, sel, starts[1..], n + m, i - m); }
    }
  }

  lemma NumberedNothing(content: string, sel: Selector, n: nat)
    ensures Numbered(content, sel, [], n) == []
  {
  }

  /** Every flanked match has its number. */
  lemma {:induction false} NumberedHolds(content: string, sel: Selector, starts: seq<nat>, n: nat, k: nat) returns (i: nat)
    requires k < |starts| && Flanked(content, sel, starts[k])
    ensures i < |Numbered(content, sel, starts, n)| && Numbered(content, sel, starts, n)[i].start == starts[k]
  {
    hide Flanked, Numbered;
    var m := NumberedStep(content, sel, starts, n);
    if k == 0 {
      i := 0;
    } else {
      var j := NumberedHolds(content, sel, starts[1..], n + m, k - 1);
      i := m + j;
    }
  }

  /** They number the matches from left to right. */
  lemma {:induction false} NumberedRises(content: string, sel: Selector, starts: seq<nat>, n: nat, i: nat, j: nat)
    requires forall a, b :: 0 <= a < b < |starts| ==> starts[a] < starts[b]
    requires i < j < |Numbered(content, sel, starts, n)|
    ensures Numbered(content, sel, starts, n)[i].start < Numbered(content, sel, starts, n)[j].start
  {
    hide Flanked, Numbered;
    if starts == [] {
      NumberedNothing(content, sel, n);
    } else {
      var m := NumberedStep(content, sel, starts, n);
      if i >= m {
        NumberedRises(content, sel, starts[1..], n + m, i - m, j - m);
      } else {
        NumberedAt(content, sel, starts[1..], n + m, j - m);
      }
    }
  }

  lemma {:induction false} LocateNumbers(content: string, sel: Selector, pos: nat, found: seq<Range>)
    requires sel.query != []
    ensures Locate(content, sel, pos, found) ==
            found + Numbered(content, sel, Matches(content, sel.query, pos), |found|)
    decreases |content| - pos
  {
    hide At, Find, Anchored, Flanked;
    FindBound(content, sel.query, pos);
    match Find(content, sel.query, pos)
    case None =>
    case Some(p) =>
      var end := p + |sel.query|;
      var rest := Matches(content, sel.query, end);
      AnchoredIsFlanked(content, sel, p);
      assert ([p] + rest)[1..] == rest;
      if Anchored(content, sel, p) {
        var next := found + [Range(p, end, |found| + 1)];
        LocateNumbers(content, sel, end, next);
        assert next + Numbered(content, sel, rest, |found| + 1)
            == found + ([Range(p, end, |found| + 1)] + Numbered(content, sel, rest, |found| + 1));
      } else {
        LocateNumbers(content, sel, end, found);
      }
  }

  /** The candidates are exactly the matches that have the text of each anchor on its side, of the one
      list of leftmost matches that do not overlap; numbered in order from 1. */
  lemma CandidatesAreGreedy(content: string, sel: Selector, starts: seq<nat>)
    requires sel.query != [] && Greedy(content, sel.query, 0, starts)
    ensures Candidates(content, sel) == Numbered(content, sel, starts, 0)
  {
    hide Greedy, Flanked, Locate, Matches, Numbered;
    MatchesGreedy(content, sel.query, 0);
    GreedyUnique(content, sel.query, 0, starts, Matches(content, sel.query, 0));
    LocateNumbers(content, sel, 0, []);
    assert [] + Numbered(content, sel, starts, 0) == Numbered(content, sel, starts, 0);
  }

  /** The target: the candidate whose number is the occurrence asked for, counted from the front or from
      the end; none without a query, for occurrence 0 and beyond the last. */
  lemma ResolvedByNumber(content: string, sel: Selector, starts: seq<nat>)
    requires sel.query != [] ==> Greedy(content, sel.query, 0, starts)
    ensures var c, r := if sel.query == [] then [] else Numbered(content, sel, starts, 0), Resolve(content, sel);
            (r.Some? <==> 1 <= sel.occurrence <= |c|) &&
            (r.Some? ==> r.value in c && r.value.ordinal == if sel.fromEnd then |c| + 1 - sel.occurrence else sel.occurrence)
  {
    hide Greedy, Flanked, Locate, Matches, Numbered;
    if sel.query != [] {
      CandidatesAreGreedy(content, sel, starts);
      var c := Numbered(content, sel, starts, 0);
      forall i | 0 <= i < |c| ensures c[i].ordinal == i + 1 {
        NumberedAt(content, sel, starts, 0, i);
      }
    }
  }

  /** Counting from the end is counting from the front over the same candidates. */
  lemma FromEndIsForward(content: string, sel: Selector)
    requires var n := |Candidates(content, sel)|; 1 <= sel.occurrence <= n
    ensures Resolve(content, sel.(fromEnd := true)) ==
            Resolve(content, sel.(fromEnd := false, occurrence := |Candidates(content, sel)| + 1 - sel.occurrence))
  {
    SameCandidates(content, sel, sel.(fromEnd := true));
    SameCandidates(content, sel, sel.(fromEnd := false, occurrence := |Candidates(content, sel)| + 1 - sel.occurrence));
  }

  lemma SameCandidates(content: string, sel: Selector, other: Selector)
    requires other.query == sel.query && other.anchorBefore == sel.anchorBefore && other.anchorAfter == sel.anchorAfter
    ensures Candidates(content, other) == Candidates(content, sel)
  {
    if sel.query != [] { SameLocate(content, sel, other, 0, []); }
  }

  lemma {:induction false} SameLocate(content: string, sel: Selector, other: Selector, pos: nat, found: seq<Range>)
    requires other.query == sel.query && other.anchorBefore == sel.anchorBefore && other.anchorAfter == sel.anchorAfter
    requires sel.query != []
    ensures Locate(content, other, pos, found) == Locate(content, sel, pos, found)
    decreases |content| - pos
  {
    hide At, Find, RFind;
    FindBound(content, sel.query, pos);
    match Find(content, sel.query, pos)
    case None =>
    case Some(p) =>
      var end := p + |sel.query|;
      SameLocate(content, sel, other, end,
                 if Anchored(content, sel, p) then found + [Range(p, end, |found| + 1)] else found);
  }

  // ----- Drift ---------------------------------------------------------------------------

  function Shifted(r: Range, d: nat): Range { Range(r.start + d, r.end + d, r.ordinal) }

  function ShiftedAll(rs: seq<Range>, d: nat): (out: seq<Range>)
    ensures |out| == |rs| && forall i :: 0 <= i < |rs| ==> out[i] == Shifted(rs[i], d)
  {
    seq(|rs|, i requires 0 <= i < |rs| => Shifted(rs[i], d))
  }

  lemma AtBehind(x: string, c: string, p: nat, s: string)
    ensures At(x + c, |x| + p, s) <==> At(c, p, s)
  {
    if At(x + c, |x| + p, s) {
      forall j | p <= j < p + |s| ensures c[j] == s[j - p] {
        assert (x + c)[|x| + j] == s[|x| + j - (|x| + p)];
      }
    }
    if At(c, p, s) {
      forall j | |x| + p <= j < |x| + p + |s| ensures (x + c)[j] == s[j - (|x| + p)] {
        assert c[j - |x|] == s[j - |x| - p];
      }
    }
  }

  lemma {:induction false} FindBehind(x: string, c: string, s: string, p: nat)
    ensures Find(x + c, s, |x| + p) ==
            match Find(c, s, p) case None => None case Some(k) => Some(|x| + k)
    decreases |c| - p
  {
    hide At;
    AtBehind(x, c, p, s);
    if p + |s| <= |c| && !At(c, p, s) { FindBehind(x, c, s, p + 1); }
  }

  lemma {:induction false} LocateBehind(x: string, c: string, sel: Selector, pos: nat, found: seq<Range>)
    requires sel.query != [] && sel.anchorBefore == []
    ensures Locate(x + c, sel, |x| + pos, ShiftedAll(found, |x|)) == ShiftedAll(Locate(c, sel, pos, found), |x|)
    decreases |c| - pos
  {
    hide At, Find, RFind;
    FindBehind(x, c, sel.query, pos);
    FindBound(c, sel.query, pos);
    FindBound(x + c, sel.query, |x| + pos);
    match Find(c, sel.query, pos)
    case None =>
    case Some(p) =>
      var end := p + |sel.query|;
      FindBehind(x, c, sel.anchorAfter, end);
      var r := Range(p, end, |found| + 1);
      assert ShiftedAll(found + [r], |x|) == ShiftedAll(found, |x|) + [Shifted(r, |x|)];
      LocateBehind(x, c, sel, end, if Anchored(c, sel, p) then found + [r] else found);
  }

  /** Text put in front of a file without making an earlier occurrence moves every candidate by
      its length and changes nothing else. */
  lemma CandidatesDrift(x: string, c: string, sel: Selector)
    requires sel.anchorBefore == [] && forall p :: 0 <= p < |x| ==> !At(x + c, p, sel.query)
    ensures Candidates(x + c, sel) == ShiftedAll(Candidates(c, sel), |x|)
  {
    if sel.query != [] {
      FindLater(x + c, sel.query, 0, |x|);
      LocateBehind(x, c, sel, 0, []);
      LocateFrom(x + c, sel, 0, |x|);
      assert ShiftedAll([], |x|) == [];
    }
  }

  lemma {:induction false} FindLater(text: string, s: string, lo: nat, hi: nat)
    requires lo <= hi
    requires forall p :: lo <= p < hi ==> !At(text, p, s)
    ensures Find(text, s, lo) == Find(text, s, hi)
    decreases hi - lo
  {
    if lo < hi {
      FindLater(text, s, lo + 1, hi);
      assert !At(text, lo, s);
    }
  }

  lemma LocateFrom(text: string, sel: Selector, from: nat, to: nat)
    requires sel.query != [] && Find(text, sel.query, from) == Find(text, sel.query, to)
    ensures Locate(text, sel, from, []) == Locate(text, sel, to, [])
  {
  }

  lemma ResolveDrift(x: string, c: string, sel: Selector)
    requires sel.anchorBefore == [] && forall p :: 0 <= p < |x| ==> !At(x + c, p, sel.query)
    ensures Resolve(x + c, sel) ==
            match Resolve(c, sel) case None => None case Some(r) => Some(Shifted(r, |x|))
  {
    hide Candidates;
    CandidatesDrift(x, c, sel);
  }

  /** Every candidate is a place where the query stands. */
  lemma {:induction false} LocateInside(content: string, sel: Selector, pos: nat, found: seq<Range>)
    requires sel.query != []
    requires forall i :: 0 <= i < |found| ==> Inside(content, sel, found[i])
    ensures forall i :: 0 <= i < |Locate(content, sel, pos, found)| ==>
              Inside(content, sel, Locate(content, sel, pos, found)[i])
    decreases |content| - pos
  {
    hide At, Find, Anchored;
    FindBound(content, sel.query, pos);
    FindAt(content, sel.query, pos);
    match Find(content, sel.query, pos)
    case None =>
    case Some(p) =>
      var end := p + |sel.query|;
      LocateInside(content, sel, end,
                   if Anchored(content, sel, p) then found + [Range(p, end, |found| + 1)] else found);
  }

  ghost predicate Inside(content: string, sel: Selector, r: Range)
  {
    r.start <= r.end <= |content| && r.end == r.start + |sel.query| && At(content, r.start, sel.query)
  }

  lemma ResolveInside(content: string, sel: Selector)
    ensures Resolve(content, sel).Some? ==> Inside(content, sel, Resolve(content, sel).value)
  {
    hide At, Locate;
    if sel.query != [] { LocateInside(content, sel, 0, []); }
  }
}

/** Strings as the C++ standard library sees them: positions, searching, blanks and decimal
    numbers.  A `char` stands for a byte; nothing here depends on its range. */
module Text {

  datatype Option<+T> = None | Some(value: T) {
    function GetOr(other: T): T { if Some? then value else other }
  }

  // ----- Substrings at a position --------------------------------------------------------

  /** `text.compare(p, s.size(), s) == 0` */
  predicate At(text: string, p: nat, s: string)
  {
    p + |s| <= |text| && forall j :: p <= j < p + |s| ==> text[j] == s[j - p]
  }

  lemma AtSelf(text: string)
    ensures At(text, 0, text)
  {
  }

  lemma AtOfSlice(text: string, b: nat, e: nat, s: string)
    requires b + |s| <= e <= |text| && At(text, b, s)
    ensures At(text[b..e], 0, s)
  {
  }

  lemma AtPrefix(text: string, p: nat, s: string, n: nat)
    requires At(text, p, s) && n <= |s|
    ensures At(text, p, s[..n])
  {
    hide At;
    assert s == s[..n] + s[n..];
    AtConcat(text, p, s[..n], s[n..]);
  }

  lemma AtBound(text: string, p: nat, s: string)
    requires At(text, p, s)
    ensures p + |s| <= |text|
  {
  }

  lemma AtSlice(text: string, p: nat, s: string)
    ensures At(text, p, s) <==> p + |s| <= |text| && text[p..p + |s|] == s
  {
  }

  lemma AtConcat(text: string, p: nat, a: string, b: string)
    ensures At(text, p, a + b) <==> At(text, p, a) && At(text, p + |a|, b)
  {
    if At(text, p, a) && At(text, p + |a|, b) {
      forall j | p <= j < p + |a + b| ensures text[j] == (a + b)[j - p] {
      }
    }
    if At(text, p, a + b) {
      forall j | p + |a| <= j < p + |a| + |b| ensures text[j] == b[j - p - |a|] {
        assert text[j] == (a + b)[j - p];
      }
      forall j | p <= j < p + |a| ensures text[j] == a[j - p] {
        assert text[j] == (a + b)[j - p];
      }
    }
  }

  lemma AtConcat3(text: string, p: nat, a: string, b: string, c: string)
    requires At(text, p, a + b + c)
    ensures At(text, p, a) && At(text, p + |a|, b) && At(text, p + |a| + |b|, c)
  {
    hide At;
    AtConcat(text, p, a + b, c);
    AtConcat(text, p, a, b);
  }

  lemma AtConcat4(text: string, p: nat, a: string, b: string, c: string, d: string)
    requires At(text, p, a + b + c + d)
    ensures At(text, p, a) && At(text, p + |a|, b) && At(text, p + |a| + |b|, c) && At(text, p + |a| + |b| + |c|, d)
  {
    hide At;
    AtConcat3(text, p, a + b, c, d);
    AtConcat(text, p, a, b);
  }

  lemma AtSingle(text: string, p: nat, c: char)
    ensures At(text, p, [c]) <==> p < |text| && text[p] == c
  {
    assert [c][0] == c;
  }

  lemma AtChars(text: string, p: nat, s: string)
    requires At(text, p, s)
    ensures forall j :: p <= j < p + |s| ==> text[j] == s[j - p]
  {
  }

  // ----- std::string::find ---------------------------------------------------------------

  /** The first position at or after `from` where `needle` stands, or None for npos. */
  function Find(text: string, needle: string, from: nat): (r: Option<nat>)
    ensures r.Some? ==> from <= r.value && At(text, r.value, needle)
    decreases |text| - from
  {
    if from + |needle| > |text| then None
    else if At(text, from, needle) then Some(from)
    else Find(text, needle, from + 1)
  }

  lemma {:induction false} FindSkips(text: string, needle: string, from: nat, p: nat)
    requires from <= p && At(text, p, needle)
    ensures Find(text, needle, from).Some? && Find(text, needle, from).value <= p
    decreases |text| - from
  {
    if !At(text, from, needle) { FindSkips(text, needle, from + 1, p); }
  }

  lemma {:induction false} FindFirst(text: string, needle: string, from: nat, p: nat)
    requires from <= p && At(text, p, needle)
    requires forall q :: from <= q < p ==> !At(text, q, needle)
    ensures Find(text, needle, from) == Some(p)
    decreases p - from
  {
    if from < p { FindFirst(text, needle, from + 1, p); }
  }

  predicate StartsWith(text: string, prefix: string)
  {
    |text| >= |prefix| && text[..|prefix|] == prefix
  }

  // ----- Blanks --------------------------------------------------------------------------

  /** `std::isspace` in the C locale: blank, \t, \n, \v, \f, \r. */
  predicate IsSpace(c: char)
  {
    c == ' ' || '\t' <= c <= '\r'
  }

  predicate Blank(s: string)
  {
    forall i :: 0 <= i < |s| ==> IsSpace(s[i])
  }

  /** The first position at or after `i` that is not blank (or the end). */
  function SkipSpace(text: string, i: nat): (j: nat)
    requires i <= |text|
    ensures i <= j <= |text|
    ensures j < |text| ==> !IsSpace(text[j])
    decreases |text| - i
  {
    if i < |text| && IsSpace(text[i]) then SkipSpace(text, i + 1) else i
  }

  lemma {:induction false} SkipSpaceBlank(text: string, i: nat)
    requires i <= |text|
    ensures forall k :: i <= k < SkipSpace(text, i) ==> IsSpace(text[k])
    decreases |text| - i
  {
    if i < |text| && IsSpace(text[i]) { SkipSpaceBlank(text, i + 1); }
  }

  lemma {:induction false} SkipSpaceUnique(text: string, i: nat, j: nat)
    requires i <= j <= |text|
    requires forall k :: i <= k < j ==> IsSpace(text[k])
    requires j < |text| ==> !IsSpace(text[j])
    ensures SkipSpace(text, i) == j
    decreases j - i
  {
    if i < j { SkipSpaceUnique(text, i + 1, j); }
  }

  /** Steps back from `hi` over blanks, but not before `lo`. */
  function BackOver(text: string, lo: nat, hi: nat): (e: nat)
    requires lo <= hi <= |text|
    ensures lo <= e <= hi
    ensures lo < e ==> !IsSpace(text[e - 1])
    decreases hi
  {
    if hi > lo && IsSpace(text[hi - 1]) then BackOver(text, lo, hi - 1) else hi
  }

  function Trim(s: string): (r: string)
    ensures r != [] ==> !IsSpace(r[0]) && !IsSpace(r[|r| - 1])
  {
    var start := SkipSpace(s, 0);
    s[start..BackOver(s, start, |s|)]
  }

  /** trim_copy: two cursors moving towards each other. */
  method TrimCopy(s: string) returns (r: string)
    ensures r == Trim(s)
  {
    var start := 0;
    while start < |s| && IsSpace(s[start])
      invariant 0 <= start <= |s|
      invariant SkipSpace(s, 0) == SkipSpace(s, start)
    {
      start := start + 1;
    }
    var end := |s|;
    while end > start && IsSpace(s[end - 1])
      invariant start <= end <= |s|
      invariant BackOver(s, start, |s|) == BackOver(s, start, end)
    {
      end := end - 1;
    }
    r := s[start..end];
  }

  predicate Trimmed(s: string)
  {
    s != [] ==> !IsSpace(s[0]) && !IsSpace(s[|s| - 1])
  }

  lemma {:induction false} BackOverUnique(text: string, lo: nat, e: nat, hi: nat)
    requires lo < e <= hi <= |text| && !IsSpace(text[e - 1])
    requires forall k :: e <= k < hi ==> IsSpace(text[k])
    ensures BackOver(text, lo, hi) == e
    decreases hi
  {
    if e < hi { BackOverUnique(text, lo, e, hi - 1); }
  }

  /** What isspace calls blank: spaces, tabs, newlines, vertical tabs, form feeds and carriage returns. */
  predicate Blanks(s: string)
  {
    forall i :: 0 <= i < |s| ==> s[i] in {' ', '\t', '\n', '\U{0B}', '\U{0C}', '\r'}
  }

  lemma BlanksAreBlank(s: string)
    ensures Blank(s) <==> Blanks(s)
  {
    assert forall c :: IsSpace(c) <==> c in {' ', '\t', '\n', '\U{0B}', '\U{0C}', '\r'};
  }

  /** Trimming removes exactly the blanks around a core that neither starts nor ends blank. */
  lemma TrimAround(a: string, core: string, b: string)
    requires Blank(a) && Blank(b) && Trimmed(core) && core != []
    ensures Trim(a + core + b) == core
  {
    var s := a + core + b;
    assert forall k :: 0 <= k < |a| ==> s[k] == a[k];
    assert s[|a|] == core[0];
    SkipSpaceUnique(s, 0, |a|);
    var e := |a| + |core|;
    assert s[e - 1] == core[|core| - 1];
    assert forall k :: e <= k < |s| ==> s[k] == b[k - e];
    BackOverUnique(s, |a|, e, |s|);
    assert s[|a|..e] == core;
  }

  lemma TrimOfTrimmed(s: string)
    requires Trimmed(s)
    ensures Trim(s) == s
  {
    if s != [] {
      TrimAround([], s, []);
      assert [] + s + [] == s;
    }
  }

  lemma TrimOfBlank(s: string)
    ensures Trim(s) == [] <==> Blank(s)
  {
    SkipSpaceBlank(s, 0);
    if Blank(s) {
      SkipSpaceUnique(s, 0, |s|);
    } else {
      var start := SkipSpace(s, 0);
      NotAllBlank(s, start, |s|);
    }
  }

  lemma {:induction false} NotAllBlank(s: string, lo: nat, hi: nat)
    requires lo < hi <= |s| && !IsSpace(s[lo])
    ensures lo < BackOver(s, lo, hi)
    decreases hi
  {
    if IsSpace(s[hi - 1]) { NotAllBlank(s, lo, hi - 1); }
  }

  // ----- Decimal numbers -----------------------------------------------------------------

  predicate IsDigit(c: char) { '0' <= c <= '9' }

  predicate Digits(s: string)
  {
    forall i :: 0 <= i < |s| ==> IsDigit(s[i])
  }

  function DigitChar(d: nat): (c: char)
    requires d < 10
    ensures IsDigit(c) && c as int - '0' as int == d
  {
    ('0' as int + d) as char
  }

  /** How an output stream prints an unsigned number. */
  function Decimal(n: nat): (s: string)
    ensures s != [] && Digits(s)
  {
    if n < 10 then [DigitChar(n)] else Decimal(n / 10) + [DigitChar(n % 10)]
  }

  /** The value of a digit string. */
  function DecimalValue(s: string): nat
    requires Digits(s)
  {
    if s == [] then 0
    else DecimalValue(s[..|s| - 1]) * 10 + (s[|s| - 1] as int - '0' as int)
  }

  lemma {:induction false} DecimalRoundTrip(n: nat)
    ensures DecimalValue(Decimal(n)) == n
  {
    if n < 10 {
      assert Decimal(n)[..0] == [];
    } else {
      DecimalRoundTrip(n / 10);
      assert Decimal(n)[..|Decimal(n)| - 1] == Decimal(n / 10);
    }
  }

  /** The end of the digit run that starts at `i`. */
  function DigitsEnd(text: string, i: nat): (j: nat)
    requires i <= |text|
    ensures i <= j <= |text|
    ensures forall k :: i <= k < j ==> IsDigit(text[k])
    ensures j < |text| ==> !IsDigit(text[j])
    decreases |text| - i
  {
    if i < |text| && IsDigit(text[i]) then DigitsEnd(text, i + 1) else i
  }
}

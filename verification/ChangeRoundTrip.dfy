/** Reading a stored change record back: for exactly which records it returns the record. */
module ChangeRoundTrip {
  import opened Text
  import opened FlatRecord
  import opened ChangeRecord

  // ----- Reasons -------------------------------------------------------------------------

  predicate CommaFree(s: string)
  {
    forall i :: 0 <= i < |s| ==> s[i] != ','
  }

  ghost predicate Items(reasons: seq<string>)
  {
    forall i :: 0 <= i < |reasons| ==> reasons[i] != [] && CommaFree(reasons[i])
  }

  lemma NoComma(s: string)
    requires CommaFree(s)
    ensures Find(s, ",", 0) == None
  {
    var r := Find(s, ",", 0);
    if r.Some? { AtSingle(s, r.value, ','); }
  }

  lemma FirstComma(a: string, rest: string)
    requires CommaFree(a)
    ensures Find(a + "," + rest, ",", 0) == Some(|a|)
  {
    var s := a + "," + rest;
    assert At(s, |a|, ",");
    forall q | 0 <= q < |a| ensures !At(s, q, ",") {
      assert s[q] == a[q];
    }
    FindFirst(s, ",", 0, |a|);
  }

  lemma {:induction false} CsvFirst(reasons: seq<string>)
    requires |reasons| > 1
    ensures Csv(reasons) == reasons[0] + "," + Csv(reasons[1..])
    decreases |reasons|
  {
    var front := reasons[..|reasons| - 1];
    if |reasons| > 2 {
      CsvFirst(front);
      assert front[1..] == reasons[1..][..|reasons| - 2];
    }
  }

  lemma {:induction false} SplitOfCsv(reasons: seq<string>)
    requires Items(reasons)
    ensures SplitCsv(Csv(reasons)) == reasons
  {
    hide Find;
    if |reasons| == 1 {
      NoComma(reasons[0]);
      assert AfterItem(reasons[0]) == [];
      assert reasons == [reasons[0]];
    } else if |reasons| > 1 {
      var a, rest := reasons[0], Csv(reasons[1..]);
      CsvFirst(reasons);
      FirstComma(a, rest);
      assert (a + "," + rest)[..|a|] == a;
      assert (a + "," + rest)[|a| + 1..] == rest;
      SplitOfCsv(reasons[1..]);
      assert reasons == [a] + reasons[1..];
    }
  }

  lemma BeforeComma(csv: string)
    ensures CommaFree(FirstItem(csv))
    decreases |csv|
  {
    var r := Find(csv, ",", 0);
    forall i | 0 <= i < |FirstItem(csv)| ensures csv[i] != ',' {
      if csv[i] == ',' {
        assert At(csv, i, ",");
        FindSkips(csv, ",", 0, i);
      }
    }
  }

  lemma {:induction false} SplitGivesItems(csv: string)
    ensures Items(SplitCsv(csv))
    decreases |csv|
  {
    if csv != [] {
      BeforeComma(csv);
      SplitGivesItems(AfterItem(csv));
    }
  }

  // ----- Braces --------------------------------------------------------------------------

  /** The brace count behind `s`, starting from `d`; None when it drops to zero on the way. */
  function Balance(s: string, d: int): (r: Option<int>)
    ensures d >= 1 && r.Some? ==> r.value >= 1
  {
    if s == [] then Some(d)
    else
      match Balance(s[..|s| - 1], d)
      case None => None
      case Some(k) => CountBrace(s[|s| - 1], k)
  }

  function CountBrace(c: char, k: int): Option<int>
  {
    if c == '{' then Some(k + 1)
    else if c == '}' then if k == 1 then None else Some(k - 1)
    else Some(k)
  }

  function Then(r: Option<int>, s: string): Option<int>
  {
    if r.Some? then Balance(s, r.value) else None
  }

  lemma {:induction false} BalanceConcat(a: string, b: string, d: int)
    ensures Balance(a + b, d) == Then(Balance(a, d), b)
    decreases |b|
  {
    if b == [] {
      assert a + b == a;
    } else {
      assert (a + b)[..|a + b| - 1] == a + b[..|b| - 1];
      BalanceConcat(a, b[..|b| - 1], d);
    }
  }

  lemma BalanceEscapeChar(c: char, d: int)
    ensures Balance(EscapeChar(c), d) == CountBrace(c, d)
  {
    var e := EscapeChar(c);
    assert Balance(e[..0], d) == Some(d);
    if |e| == 2 { assert e[..1][..0] == []; }
  }

  lemma {:induction false} BalanceEscaped(s: string, d: int)
    ensures Balance(Escaped(s), d) == Balance(s, d)
    decreases |s|
  {
    hide EscapeChar;
    if s != [] {
      var front, last := s[..|s| - 1], s[|s| - 1];
      BalanceConcat(Escaped(front), EscapeChar(last), d);
      BalanceEscaped(front, d);
      if Balance(front, d).Some? { BalanceEscapeChar(last, Balance(front, d).value); }
    }
  }

  predicate BraceFree(s: string)
  {
    forall i :: 0 <= i < |s| ==> s[i] != '{' && s[i] != '}'
  }

  lemma {:induction false} BalanceBraceFree(s: string, d: int)
    requires BraceFree(s)
    ensures Balance(s, d) == Some(d)
    decreases |s|
  {
    if s != [] { BalanceBraceFree(s[..|s| - 1], d); }
  }

  /** The scan for the closing brace, over a stretch of text. */
  lemma {:induction false} BraceRegion(text: string, i: nat, s: string, d: int)
    requires At(text, i, s) && d >= 1
    ensures Balance(s, d).Some? ==> BraceEnd(text, i, d) == BraceEnd(text, i + |s|, Balance(s, d).value)
    ensures Balance(s, d).None? ==> BraceEnd(text, i, d).Some? && BraceEnd(text, i, d).value < i + |s|
    decreases |s|
  {
    hide At;
    if s != [] {
      var front, last := s[..|s| - 1], s[|s| - 1];
      assert s == front + [last];
      AtConcat(text, i, front, [last]);
      AtSingle(text, i + |front|, last);
      BraceRegion(text, i, front, d);
    } else {
      AtBound(text, i, s);
    }
  }

  // ----- The risk object -----------------------------------------------------------------

  function LevelField(risk: RiskHint): Field { Field("level", StringValue(risk.level)) }

  function ReasonsField(risk: RiskHint): Field { Field("reasons_csv", StringValue(Csv(risk.reasons))) }

  /** Everything of the object but its closing brace. */
  function RiskHead(risk: RiskHint): string
  {
    "{" + RenderEach([LevelField(risk)]) + Render(ReasonsField(risk))
  }

  lemma RiskKeys()
    ensures IsKey("level") && IsKey("reasons_csv") && "level" != "reasons_csv"
  {
    assert |"level"| != |"reasons_csv"|;
  }

  lemma RiskShape(risk: RiskHint)
    ensures SerializedRisk(risk) == RiskHead(risk) + "}"
  {
    JoinEscapedIsEscapedCsv(risk.reasons);
    var l := LevelField(risk);
    assert [l][1..] == [];
    assert RenderEach([l]) == Render(l) + ",";
    assert "{" + Render(l) + "," == "{" + RenderEach([l]);
  }

  function Read(risk: RiskHint): RiskHint
  {
    RiskHint(if risk.level == "" then "low" else risk.level, SplitCsv(Csv(risk.reasons)))
  }

  /** From any text that begins with the head of the object, both values are read. */
  lemma RiskRead(text: string, risk: RiskHint)
    requires At(text, 0, RiskHead(risk))
    ensures GetRisk(text) == Read(risk)
  {
    hide At, IsKey, ScanFrom, Escaped, ReadString;
    RiskKeys();
    var fs := [LevelField(risk)];
    AtConcat(text, 0, "{" + RenderEach(fs), Render(ReasonsField(risk)));
    StringRead(text, fs, 0, risk.level);
    ScanFindsField(text, fs, ReasonsField(risk));
    StringReadAt(text, ScanFrom(text, "reasons_csv", 0).value, Csv(risk.reasons));
  }

  /** A text cut off inside the level is read as the default level. */
  lemma CutInLevel(risk: RiskHint, n: nat)
    requires n <= |Escaped(risk.level)|
    ensures GetRisk("{" + RenderEach([]) + Render(Field("level", "\"" + Escaped(risk.level)[..n]))).level == "low"
  {
    hide At, IsKey, ScanFrom, Escaped, ReadString;
    RiskKeys();
    var f := Field("level", "\"" + Escaped(risk.level)[..n]);
    var text := "{" + RenderEach([]) + Render(f);
    AtSelf(text);
    ScanFindsField(text, [], f);
    ReadCut(text, ScanFrom(text, "level", 0).value, risk.level, n);
  }

  lemma ReadCut(text: string, v: nat, s: string, n: nat)
    requires n <= |Escaped(s)| && At(text, v, "\"" + Escaped(s)[..n]) && |text| == v + 1 + n
    ensures v < |text| && text[v] == '"' && ReadString(text, v + 1, [], RecordUnescape) == None
  {
    hide At, Undoes, RecordUnescape, Escaped;
    RecordUndoes();
    AtConcat(text, v, "\"", Escaped(s)[..n]);
    AtSingle(text, v, '"');
    ReadUnterminated(text, v + 1, [], s, n, RecordUnescape);
  }

  /** A text cut off inside the reasons is read as having none. */
  lemma CutInReasons(risk: RiskHint, n: nat)
    requires n <= |Escaped(Csv(risk.reasons))|
    ensures GetRisk("{" + RenderEach([LevelField(risk)]) +
                    Render(Field("reasons_csv", "\"" + Escaped(Csv(risk.reasons))[..n]))).reasons == []
  {
    hide At, IsKey, ScanFrom, Escaped, ReadString;
    RiskKeys();
    var fs := [LevelField(risk)];
    var f := Field("reasons_csv", "\"" + Escaped(Csv(risk.reasons))[..n]);
    var text := "{" + RenderEach(fs) + Render(f);
    AtSelf(text);
    ScanFindsField(text, fs, f);
    ReadCut(text, ScanFrom(text, "reasons_csv", 0).value, Csv(risk.reasons), n);
  }

  // ----- Which brace closes the object ---------------------------------------------------

  const LEVEL_OPEN := Quoted("level") + ":" + "\""
  const REASONS_OPEN := "\"" + "," + Quoted("reasons_csv") + ":" + "\""

  lemma OpenersBraceFree()
    ensures BraceFree(LEVEL_OPEN) && BraceFree(REASONS_OPEN) && BraceFree("\"")
  {
  }

  lemma Regroup(key: string, colon: string, quote: string, value: string)
    ensures key + colon + (quote + value + quote) == (key + colon + quote) + value + quote
  {
  }

  lemma Regroup2(open: string, a: string, v: string, quote: string, comma: string, b: string, w: string, close: string)
    ensures open + (a + v + quote) + comma + (b + w + quote) + close
         == open + a + v + (quote + comma + b) + w + quote + close
  {
    assert open + (a + v + quote) == open + a + v + quote;
    assert (open + a + v + quote) + comma + (b + w + quote) == open + a + v + (quote + comma + b) + w + quote;
  }

  lemma RiskPieces(risk: RiskHint)
    ensures SerializedRisk(risk) ==
            "{" + LEVEL_OPEN + Escaped(risk.level) + REASONS_OPEN + Escaped(Csv(risk.reasons)) + "\"" + "}"
  {
    JoinEscapedIsEscapedCsv(risk.reasons);
    var e, w := Escaped(risk.level), Escaped(Csv(risk.reasons));
    var k := Quoted("reasons_csv") + ":" + "\"";
    Regroup(Quoted("level"), ":", "\"", e);
    Regroup(Quoted("reasons_csv"), ":", "\"", w);
    Regroup2("{", LEVEL_OPEN, e, "\"", ",", k, w, "}");
    assert "\"" + "," + k == REASONS_OPEN by { Regroup3("\"" + ",", Quoted("reasons_csv"), ":", "\""); }
  }

  lemma Regroup3(a: string, b: string, c: string, d: string)
    ensures a + (b + c + d) == a + b + c + d
  {
  }

  /** Where the brace count of an object's own text stands before its closing brace. */
  function NetBraces(risk: RiskHint): Option<int>
  {
    Then(Balance(risk.level, 1), Csv(risk.reasons))
  }

  /** A text that ends in an object made of two escaped values behind their openers. */
  ghost predicate Laid(text: string, b: nat, open1: string, v1: string, open2: string, v2: string)
  {
    var p1 := b + 1;
    var p2 := p1 + |open1| + |Escaped(v1)|;
    var p3 := p2 + |open2| + |Escaped(v2)|;
    At(text, b, "{") && At(text, p1, open1) && At(text, p1 + |open1|, Escaped(v1)) &&
    At(text, p2, open2) && At(text, p2 + |open2|, Escaped(v2)) &&
    At(text, p3, "\"") && At(text, p3 + 1, "}") && At(text, p3 + 2, "}") && |text| == p3 + 3
  }

  lemma LayOut(text: string, b: nat, open1: string, v1: string, open2: string, v2: string)
    requires At(text, b, "{" + open1 + Escaped(v1) + open2 + Escaped(v2) + "\"" + "}" + "}")
    requires |text| == b + 1 + |open1| + |Escaped(v1)| + |open2| + |Escaped(v2)| + 3
    ensures Laid(text, b, open1, v1, open2, v2)
  {
    hide At, Escaped;
    var front := "{" + open1 + Escaped(v1) + open2;
    AtConcat3(text, b, front + Escaped(v2) + "\"", "}", "}");
    AtConcat3(text, b, front, Escaped(v2), "\"");
    AtConcat4(text, b, "{", open1, Escaped(v1), open2);
  }

  lemma LaidOut(text: string, b: nat, risk: RiskHint)
    requires At(text, b, SerializedRisk(risk) + "}") && |text| == b + |SerializedRisk(risk)| + 1
    ensures Laid(text, b, LEVEL_OPEN, risk.level, REASONS_OPEN, Csv(risk.reasons))
  {
    hide At, Escaped, Laid, SerializedRisk;
    RiskPieces(risk);
    LayOut(text, b, LEVEL_OPEN, risk.level, REASONS_OPEN, Csv(risk.reasons));
  }

  /** Over an opener without braces and then an escaped value, the count changes by the value's. */
  lemma ScanValue(text: string, p: nat, opener: string, value: string, d: int)
    requires At(text, p, opener) && At(text, p + |opener|, Escaped(value)) && BraceFree(opener) && d >= 1
    ensures var q := p + |opener| + |Escaped(value)|;
            match Balance(value, d)
            case Some(d1) => BraceEnd(text, p, d) == BraceEnd(text, q, d1)
            case None => BraceEnd(text, p, d).Some? && p + |opener| <= BraceEnd(text, p, d).value < q
  {
    hide At, Escaped, Balance, BraceFree, BraceEnd;
    BalanceBraceFree(opener, d);
    BraceRegion(text, p, opener, d);
    BalanceEscaped(value, d);
    BraceRegion(text, p + |opener|, Escaped(value), d);
  }

  lemma ScanClose(text: string, p: nat, d: int)
    requires At(text, p, "\"") && At(text, p + 1, "}") && At(text, p + 2, "}") && |text| == p + 3 && d >= 1
    ensures BraceEnd(text, p, d) == if d == 1 then Some(p + 1) else if d == 2 then Some(p + 2) else None
  {
    AtSingle(text, p, '"');
    AtSingle(text, p + 1, '}');
    AtSingle(text, p + 2, '}');
    assert BraceEnd(text, p, d) == BraceEnd(text, p + 1, d);
    if d > 1 {
      assert BraceEnd(text, p + 1, d) == BraceEnd(text, p + 2, d - 1);
      if d > 2 { assert BraceEnd(text, p + 2, d - 1) == BraceEnd(text, p + 3, d - 2); }
    }
  }

  /** The scan passes both values with exactly their own net braces. */
  lemma BraceScan(text: string, b: nat, open1: string, v1: string, open2: string, v2: string)
    requires Laid(text, b, open1, v1, open2, v2) && BraceFree(open1) && BraceFree(open2)
    ensures var r := BraceEnd(text, b, 0);
            match Then(Balance(v1, 1), v2)
            case Some(d) => r == if d == 1 then Some(|text| - 2) else if d == 2 then Some(|text| - 1) else None
            case None => r.Some? && r.value < |text| - 3
    ensures var r := BraceEnd(text, b, 0);
            if Balance(v1, 1).None? then b + 1 + |open1| <= r.value < b + 1 + |open1| + |Escaped(v1)|
            else r.Some? ==> b + 1 + |open1| + |Escaped(v1)| + |open2| <= r.value
  {
    hide At, Escaped, Balance, BraceFree;
    var p2 := b + 1 + |open1| + |Escaped(v1)|;
    AtSingle(text, b, '{');
    ScanValue(text, b + 1, open1, v1, 1);
    var d1 := Balance(v1, 1);
    if d1.Some? {
      ScanValue(text, p2, open2, v2, d1.value);
      var d2 := Balance(v2, d1.value);
      if d2.Some? {
        ScanClose(text, p2 + |open2| + |Escaped(v2)|, d2.value);
      }
    }
  }

  // ----- The stored risk -----------------------------------------------------------------

  /** The risk hints a stored record keeps: a caller can check this before staging. */
  ghost predicate Storable(risk: RiskHint)
  {
    risk.level != "" && Items(risk.reasons) &&
    (NetBraces(risk) == Some(1) || NetBraces(risk) == Some(2))
  }

  /** What deserialize_change makes of the brace scan's outcome. */
  function Extracted(text: string, b: nat): RiskHint
    requires b <= |text|
  {
    match BraceEnd(text, b, 0)
    case None => DEFAULT_RISK
    case Some(e) => GetRisk(text[b..e + 1])
  }

  lemma ExtractedWhole(text: string, b: nat, risk: RiskHint)
    requires At(text, b, SerializedRisk(risk) + "}") && |text| == b + |SerializedRisk(risk)| + 1
    requires NetBraces(risk) == Some(1) || NetBraces(risk) == Some(2)
    ensures Extracted(text, b) == Read(risk)
  {
    hide At, Escaped, Balance, BraceEnd, Laid, BraceFree, GetRisk, RiskHead, SerializedRisk, Read;
    LaidOut(text, b, risk);
    OpenersBraceFree();
    BraceScan(text, b, LEVEL_OPEN, risk.level, REASONS_OPEN, Csv(risk.reasons));
    RiskShape(risk);
    var e := BraceEnd(text, b, 0).value;
    AtConcat3(text, b, RiskHead(risk), "}", "}");
    AtOfSlice(text, b, e + 1, RiskHead(risk));
    RiskRead(text[b..e + 1], risk);
  }

  /** When the count closes inside a value, what is read is not what was written. */
  lemma ExtractedEarly(text: string, b: nat, risk: RiskHint)
    requires At(text, b, SerializedRisk(risk) + "}") && |text| == b + |SerializedRisk(risk)| + 1
    requires NetBraces(risk) == None
    ensures Extracted(text, b) != risk
  {
    hide At, Escaped, BraceEnd, BraceFree, GetRisk, SerializedRisk, Balance, RenderEach, Render, Csv;
    LaidOut(text, b, risk);
    OpenersBraceFree();
    BraceScan(text, b, LEVEL_OPEN, risk.level, REASONS_OPEN, Csv(risk.reasons));
    var e := BraceEnd(text, b, 0).value;
    var p1 := b + 1 + |LEVEL_OPEN|;
    if Balance(risk.level, 1).None? {
      var n := e + 1 - p1;
      EarlyInLevel(text, b, risk, n);
      CutInLevel(risk, n);
      LowIsBraceFree(risk.level);
    } else {
      var p2 := p1 + |Escaped(risk.level)| + |REASONS_OPEN|;
      assert e + 1 - p2 <= |Escaped(Csv(risk.reasons))|;
      var n := e + 1 - p2;
      EarlyInReasons(text, b, risk, n);
      CutInReasons(risk, n);
      NoReasonsNoBraces(risk, Balance(risk.level, 1).value);
    }
  }

  lemma LowIsBraceFree(level: string)
    requires Balance(level, 1) == None
    ensures level != "low"
  {
    if level == "low" {
      BalanceBraceFree(level, 1);
    }
  }

  lemma NoReasonsNoBraces(risk: RiskHint, d: int)
    requires Balance(Csv(risk.reasons), d) != Some(d)
    ensures risk.reasons != []
  {
  }

  /** The text up to a point inside the level, as the rendering of a cut field. */
  lemma EarlyInLevel(text: string, b: nat, risk: RiskHint, n: nat)
    requires Laid(text, b, LEVEL_OPEN, risk.level, REASONS_OPEN, Csv(risk.reasons))
    requires n <= |Escaped(risk.level)|
    ensures b + 1 + |LEVEL_OPEN| + n <= |text| &&
            text[b..b + 1 + |LEVEL_OPEN| + n] ==
            "{" + RenderEach([]) + Render(Field("level", "\"" + Escaped(risk.level)[..n]))
  {
    hide At, Escaped, RenderEach;
    var cut := Escaped(risk.level)[..n];
    AtPrefix(text, b + 1 + |LEVEL_OPEN|, Escaped(risk.level), n);
    AtConcat(text, b, "{", LEVEL_OPEN);
    AtConcat(text, b, "{" + LEVEL_OPEN, cut);
    AtSlice(text, b, "{" + LEVEL_OPEN + cut);
    LevelCut(cut);
  }

  lemma LevelCut(cut: string)
    ensures "{" + RenderEach([]) + Render(Field("level", "\"" + cut)) == "{" + LEVEL_OPEN + cut
  {
    assert "{" + RenderEach([]) == "{";
    RegroupTail("{", Quoted("level"), ":", "\"", cut);
  }

  lemma RegroupTail(o: string, a: string, b: string, c: string, d: string)
    ensures o + (a + b + (c + d)) == o + (a + b + c) + d
  {
  }

  /** The text up to a point inside the reasons, as the rendering of a cut field. */
  lemma EarlyInReasons(text: string, b: nat, risk: RiskHint, n: nat)
    requires Laid(text, b, LEVEL_OPEN, risk.level, REASONS_OPEN, Csv(risk.reasons))
    requires n <= |Escaped(Csv(risk.reasons))|
    ensures var e := b + 1 + |LEVEL_OPEN| + |Escaped(risk.level)| + |REASONS_OPEN| + n;
            e <= |text| && text[b..e] ==
            "{" + RenderEach([LevelField(risk)]) +
            Render(Field("reasons_csv", "\"" + Escaped(Csv(risk.reasons))[..n]))
  {
    hide At, Escaped, RenderEach;
    var v, w := Escaped(risk.level), Escaped(Csv(risk.reasons));
    var front := "{" + LEVEL_OPEN + v + REASONS_OPEN;
    AtPrefix(text, b + |front|, w, n);
    AtConcat(text, b, "{", LEVEL_OPEN);
    AtConcat(text, b, "{" + LEVEL_OPEN, v);
    AtConcat(text, b, "{" + LEVEL_OPEN + v, REASONS_OPEN);
    AtConcat(text, b, front, w[..n]);
    AtSlice(text, b, front + w[..n]);
    ReasonsCut(risk, w[..n]);
  }

  lemma ReasonsCut(risk: RiskHint, cut: string)
    ensures "{" + RenderEach([LevelField(risk)]) + Render(Field("reasons_csv", "\"" + cut))
         == "{" + LEVEL_OPEN + Escaped(risk.level) + REASONS_OPEN + cut
  {
    hide Escaped;
    var l := LevelField(risk);
    assert [l][..0] == [];
    assert RenderEach([l]) == Render(l) + ",";
    RegroupBoth("{", Quoted("level") + ":", Escaped(risk.level), "\"", ",", Quoted("reasons_csv"), ":", cut);
  }

  lemma RegroupBoth(o: string, k: string, v: string, q: string, comma: string, k2: string, colon: string, cut: string)
    ensures o + (k + (q + v + q) + comma) + (k2 + colon + (q + cut))
         == o + (k + q) + v + (q + comma + k2 + colon + q) + cut
  {
    assert o + (k + (q + v + q) + comma) == o + (k + q) + v + (q + comma);
    assert (o + (k + q) + v + (q + comma)) + (k2 + colon + (q + cut)) == o + (k + q) + v + (q + comma + k2 + colon + q) + cut;
  }

  /** Reading the stored risk gives it back exactly when it is storable. */
  lemma RiskRoundTrip(text: string, b: nat, risk: RiskHint)
    requires At(text, b, SerializedRisk(risk) + "}") && |text| == b + |SerializedRisk(risk)| + 1
    ensures Extracted(text, b) == risk <==> Storable(risk)
  {
    hide At, Escaped, BraceEnd, Laid, BraceFree, SerializedRisk, Balance, RenderEach, RiskHead, Find, GetString, SplitCsv, Csv;
    match NetBraces(risk) {
      case None =>
        ExtractedEarly(text, b, risk);
      case Some(d) =>
        if d == 1 || d == 2 {
          ExtractedWhole(text, b, risk);
          SplitGivesItems(Csv(risk.reasons));
          if Items(risk.reasons) { SplitOfCsv(risk.reasons); }
        } else {
          LaidOut(text, b, risk);
          OpenersBraceFree();
          BraceScan(text, b, LEVEL_OPEN, risk.level, REASONS_OPEN, Csv(risk.reasons));
          DefaultIsBraceFree();
        }
    }
  }

  lemma DefaultIsBraceFree()
    ensures NetBraces(DEFAULT_RISK) == Some(1)
  {
    BalanceBraceFree("low", 1);
    BalanceBraceFree("", 1);
  }

  // ----- The whole record ----------------------------------------------------------------

  ghost predicate SizesFit(c: StagedChange)
  {
    c.lineStart < SIZE_LIMIT && c.lineEnd < SIZE_LIMIT && c.selector.occurrence < SIZE_LIMIT
  }

  lemma DecimalPlain(n: nat)
    ensures Plain(Decimal(n)) && Decimal(n) != [] && !IsSpace(Decimal(n)[0])
  {
    assert IsDigit(Decimal(n)[0]);
  }

  lemma StringPlain(s: string)
    ensures Plain(StringValue(s)) && StringValue(s) != [] && !IsSpace(StringValue(s)[0])
  {
  }

  lemma ChangeFieldsPlain(c: StagedChange)
    ensures forall i :: 0 <= i < 21 ==>
              Plain(ChangeFields(c)[i].raw) && ChangeFields(c)[i].raw != [] && !IsSpace(ChangeFields(c)[i].raw[0])
  {
    hide Plain, StringValue, Decimal, IsSpace;
    forall s { StringPlain(s); }
    forall n { DecimalPlain(n); }
    BoolPlain(c.selector.fromEnd);
  }

  lemma BoolPlain(b: bool)
    ensures Plain(BoolText(b)) && BoolText(b) != [] && !IsSpace(BoolText(b)[0])
  {
  }

  lemma ChangeRenders(c: StagedChange)
    ensures Renders(SerializedChange(c), ChangeFields(c))
  {
    hide At, Plain, IsKey, ChangeFields, RenderEach, SerializedRisk;
    var text, fs := SerializedChange(c), ChangeFields(c);
    ChangeFieldsPlain(c);
    ChangeKeysAreKeys(c);
    ChangeKeys(c);
    AtSelf(text);
    AtConcat(text, 0, "{" + RenderEach(fs) + Render(Field("risk", SerializedRisk(c.risk))), "}");
    AtConcat(text, 0, "{" + RenderEach(fs), Render(Field("risk", SerializedRisk(c.risk))));
  }

  lemma IdentityRead(c: StagedChange)
    ensures var t := SerializedChange(c);
            GetString(t, "change_id") == c.changeId && GetString(t, "session_id") == c.sessionId &&
            GetString(t, "operation") == c.operation && GetString(t, "path") == c.path
  {
    hide Renders, GetString, GetSize, GetBool, StringValue, SerializedChange;
    var t, fs := SerializedChange(c), ChangeFields(c);
    ChangeRenders(c);
    StringRead(t, fs, 0, c.changeId);
    StringRead(t, fs, 1, c.sessionId);
    StringRead(t, fs, 2, c.operation);
    StringRead(t, fs, 3, c.path);
  }

  lemma NotesRead(c: StagedChange)
    ensures var t := SerializedChange(c);
            GetString(t, "selector_reason") == c.selectorReason && GetString(t, "anchor") == c.anchor &&
            GetString(t, "created_at") == c.createdAt
  {
    hide Renders, GetString, GetSize, GetBool, StringValue, SerializedChange;
    var t, fs := SerializedChange(c), ChangeFields(c);
    ChangeRenders(c);
    StringRead(t, fs, 18, c.selectorReason);
    StringRead(t, fs, 19, c.anchor);
    StringRead(t, fs, 20, c.createdAt);
  }

  lemma LinesRead(c: StagedChange)
    requires SizesFit(c)
    ensures var t := SerializedChange(c);
            GetSize(t, "line_start", 0) == c.lineStart && GetSize(t, "line_end", 0) == c.lineEnd
  {
    hide Renders, GetString, GetSize, GetBool, StringValue, SerializedChange;
    var t, fs := SerializedChange(c), ChangeFields(c);
    ChangeRenders(c);
    SizeRead(t, fs, 4, c.lineStart, 0);
    SizeRead(t, fs, 5, c.lineEnd, 0);
  }

  lemma ContentRead(c: StagedChange)
    ensures var t := SerializedChange(c);
            GetString(t, "expected_content") == c.expectedContent && GetString(t, "base_mtime") == c.baseMtime &&
            GetString(t, "base_hash") == c.baseHash && GetString(t, "new_content") == c.newContent
  {
    hide Renders, GetString, GetSize, GetBool, StringValue, SerializedChange;
    var t, fs := SerializedChange(c), ChangeFields(c);
    ChangeRenders(c);
    StringRead(t, fs, 6, c.expectedContent);
    StringRead(t, fs, 7, c.baseMtime);
    StringRead(t, fs, 8, c.baseHash);
    StringRead(t, fs, 9, c.newContent);
  }

  lemma ScopeRead(c: StagedChange)
    ensures var t := SerializedChange(c);
            GetString(t, "selector_query") == c.selector.query && GetString(t, "selector_exact_path") == c.selector.exactPath &&
            GetString(t, "selector_directory_prefix") == c.selector.directoryPrefix &&
            GetString(t, "selector_extension") == c.selector.extension
  {
    hide Renders, GetString, GetSize, GetBool, StringValue, SerializedChange;
    var t, fs := SerializedChange(c), ChangeFields(c);
    ChangeRenders(c);
    StringRead(t, fs, 10, c.selector.query);
    StringRead(t, fs, 11, c.selector.exactPath);
    StringRead(t, fs, 12, c.selector.directoryPrefix);
    StringRead(t, fs, 13, c.selector.extension);
  }

  lemma AnchorsRead(c: StagedChange)
    ensures var t := SerializedChange(c);
            GetString(t, "selector_anchor_before") == c.selector.anchorBefore &&
            GetString(t, "selector_anchor_after") == c.selector.anchorAfter
  {
    hide Renders, GetString, GetSize, GetBool, StringValue, SerializedChange;
    var t, fs := SerializedChange(c), ChangeFields(c);
    ChangeRenders(c);
    StringRead(t, fs, 14, c.selector.anchorBefore);
    StringRead(t, fs, 15, c.selector.anchorAfter);
  }

  lemma ChoiceRead(c: StagedChange)
    requires SizesFit(c)
    ensures var t := SerializedChange(c);
            GetSize(t, "selector_occurrence", 1) == c.selector.occurrence &&
            GetBool(t, "selector_from_end", false) == c.selector.fromEnd
  {
    hide Renders, GetString, GetSize, GetBool, StringValue, SerializedChange;
    var t, fs := SerializedChange(c), ChangeFields(c);
    ChangeRenders(c);
    SizeRead(t, fs, 16, c.selector.occurrence, 1);
    BoolRead(t, fs, 17, c.selector.fromEnd, false);
  }

  /** The raw search for the risk field finds the field itself. */
  lemma RiskLocated(c: StagedChange) returns (b: nat)
    ensures var text := SerializedChange(c);
            |text| == b + |SerializedRisk(c.risk)| + 1 && At(text, b, SerializedRisk(c.risk) + "}") &&
            RiskOf(text) == Extracted(text, b)
  {
    hide At, Plain, IsKey, ChangeFields, RenderEach, KeyAt, KeyIn, SerializedRisk, BraceEnd, Find, GetRisk;
    var text, fs := SerializedChange(c), ChangeFields(c);
    var t, raw := 1 + |RenderEach(fs)|, SerializedRisk(c.risk);
    b := t + 7;
    ChangeRenders(c);
    AtSelf(text);
    assert text == "{" + RenderEach(fs) + "\"risk\":" + (raw + "}") by { RiskFieldText(raw); }
    AtConcat3(text, 0, "{" + RenderEach(fs), "\"risk\":", raw + "}");
    NoRiskKey(c);
    NoKeyBefore(text, fs, "risk");
    forall p | 0 <= p < t ensures !At(text, p, "\"risk\":") {
      if At(text, p, "\"risk\":") { RiskSighting(text, p); }
    }
    FindFirst(text, "\"risk\":", 0, t);
    RiskOpens(c.risk);
    BraceFound(text, t, raw + "}");
  }

  lemma RiskFieldText(raw: string)
    ensures Render(Field("risk", raw)) == "\"risk\":" + raw
  {
    assert Quoted("risk") + ":" == "\"risk\":";
  }

  lemma NoRiskKey(c: StagedChange)
    ensures !KeyIn("risk", ChangeFields(c)) && IsKey("risk")
  {
    hide ChangeFields, IsKey;
    ShortKeys();
    ChangeKeys(c);
    assert KeySlot("risk") == 21;
  }

  lemma RiskSighting(text: string, p: nat)
    requires At(text, p, "\"risk\":")
    ensures KeyAt(text, "risk", p)
  {
    hide At;
    assert "\"risk\":" == Quoted("risk") + ":";
    AtConcat(text, p, Quoted("risk"), ":");
    AtSingle(text, p + 6, ':');
  }

  lemma RiskOpens(risk: RiskHint)
    ensures SerializedRisk(risk) != [] && SerializedRisk(risk)[0] == '{'
  {
  }

  lemma BraceFound(text: string, t: nat, rest: string)
    requires At(text, t, "\"risk\":") && At(text, t + 7, rest) && rest != [] && rest[0] == '{'
    ensures Find(text, "{", t) == Some(t + 7)
  {
    AtSingle(text, t + 7, '{');
    assert text[t + 7] == rest[0];
    forall q | t <= q < t + 7 ensures !At(text, q, "{") {
      AtSingle(text, q, '{');
      assert text[q] == "\"risk\":"[q - t];
    }
    FindFirst(text, "{", t, t + 7);
  }

  /** A stored change is read back unchanged, whatever its strings contain, exactly when its risk
      hint is storable; every other field always survives. */
  lemma StoreThenLoad(c: StagedChange)
    requires SizesFit(c)
    ensures DeserializedChange(SerializedChange(c)) == c <==> Storable(c.risk)
    ensures DeserializedChange(SerializedChange(c)).(risk := c.risk) == c
  {
    hide At, Storable, Extracted, SerializedChange, RiskOf, GetString, GetSize, GetBool, SerializedRisk;
    IdentityRead(c);
    NotesRead(c);
    LinesRead(c);
    ContentRead(c);
    ScopeRead(c);
    AnchorsRead(c);
    ChoiceRead(c);
    var b := RiskLocated(c);
    RiskRoundTrip(SerializedChange(c), b, c.risk);
  }

  /** A record that is not read back as stored: its one reason holds a comma. */
  lemma CommaIsSplit(c: StagedChange)
    requires SizesFit(c) && c.risk == RiskHint("low", ["a,b"])
    ensures DeserializedChange(SerializedChange(c)) != c
  {
    hide DeserializedChange, SerializedChange, NetBraces;
    StoreThenLoad(c);
    assert "a,b"[1] == ',';
    assert !CommaFree(c.risk.reasons[0]);
  }
}

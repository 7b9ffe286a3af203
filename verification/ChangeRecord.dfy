/** Staged change records and their on-disk form (session_service.cpp). */
module ChangeRecord {
  import opened Text
  import opened FlatRecord

  datatype Selector = Selector(
    query: string, exactPath: string, directoryPrefix: string, extension: string,
    anchorBefore: string, anchorAfter: string, occurrence: nat, fromEnd: bool)

  datatype RiskHint = RiskHint(level: string, reasons: seq<string>)

  datatype StagedChange = StagedChange(
    changeId: string, sessionId: string, operation: string, path: string,
    lineStart: nat, lineEnd: nat, selector: Selector,
    expectedContent: string, baseMtime: string, baseHash: string, newContent: string,
    selectorReason: string, anchor: string, risk: RiskHint, createdAt: string)

  const DEFAULT_RISK := RiskHint("low", [])

  // ----- Risk hints ----------------------------------------------------------------------

  function JoinEscaped(reasons: seq<string>): string
  {
    if reasons == [] then []
    else if |reasons| == 1 then Escaped(reasons[0])
    else JoinEscaped(reasons[..|reasons| - 1]) + "," + Escaped(reasons[|reasons| - 1])
  }

  /** The reasons as one comma-separated value, before escaping. */
  function Csv(reasons: seq<string>): string
  {
    if reasons == [] then []
    else if |reasons| == 1 then reasons[0]
    else Csv(reasons[..|reasons| - 1]) + "," + reasons[|reasons| - 1]
  }

  function SerializedRisk(risk: RiskHint): string
  {
    "{" + Render(Field("level", StringValue(risk.level))) + "," +
    Render(Field("reasons_csv", "\"" + JoinEscaped(risk.reasons) + "\"")) + "}"
  }

  method JoinReasons(reasons: seq<string>) returns (csv: string)
    ensures csv == JoinEscaped(reasons)
  {
    csv := "";
    for i := 0 to |reasons|
      invariant csv == JoinEscaped(reasons[..i])
    {
      assert reasons[..i + 1][..i] == reasons[..i];
      if i > 0 { csv := csv + ","; }
      var reason := JsonEscape(reasons[i]);
      csv := csv + reason;
    }
    assert reasons[..|reasons|] == reasons;
  }

  /** serialize_risk */
  method SerializeRisk(risk: RiskHint) returns (out: string)
    ensures out == SerializedRisk(risk)
  {
    var level := JsonEscape(risk.level);
    var csv := JoinReasons(risk.reasons);
    out := "{" + Render(Field("level", "\"" + level + "\"")) + "," +
           Render(Field("reasons_csv", "\"" + csv + "\"")) + "}";
  }

  lemma {:induction false} JoinEscapedIsEscapedCsv(reasons: seq<string>)
    ensures JoinEscaped(reasons) == Escaped(Csv(reasons))
  {
    hide Escaped;
    if |reasons| > 1 {
      var front := reasons[..|reasons| - 1];
      JoinEscapedIsEscapedCsv(front);
      EscapedConcat(Csv(front) + ",", reasons[|reasons| - 1]);
      EscapedConcat(Csv(front), ",");
      EscapedComma();
    } else if reasons == [] {
      EscapedNil();
    }
  }

  lemma EscapedComma()
    ensures Escaped(",") == ","
  {
    assert ","[..0] == "";
  }

  lemma EscapedNil()
    ensures Escaped([]) == []
  {
  }

  function FirstItem(csv: string): string
  {
    match Find(csv, ",", 0)
    case None => csv
    case Some(p) => csv[..p]
  }

  function AfterItem(csv: string): (rest: string)
    ensures csv != [] ==> |rest| < |csv|
  {
    match Find(csv, ",", 0)
    case None => []
    case Some(p) => csv[p + 1..]
  }

  function NonEmpty(item: string): seq<string> { if item == [] then [] else [item] }

  /** std::getline on ',' with empty items dropped. */
  function SplitCsv(csv: string): (items: seq<string>)
    decreases |csv|
  {
    if csv == [] then [] else NonEmpty(FirstItem(csv)) + SplitCsv(AfterItem(csv))
  }

  function GetRisk(text: string): RiskHint
  {
    var level := GetString(text, "level");
    RiskHint(if level == "" then "low" else level, SplitCsv(GetString(text, "reasons_csv")))
  }

  lemma SplitCsvStep(before: seq<string>, csv: string)
    requires csv != []
    ensures before + SplitCsv(csv) == before + NonEmpty(FirstItem(csv)) + SplitCsv(AfterItem(csv))
  {
  }

  method SplitReasons(csv: string) returns (reasons: seq<string>)
    ensures reasons == SplitCsv(csv)
  {
    reasons := [];
    var rest := csv;
    while rest != []
      invariant reasons + SplitCsv(rest) == SplitCsv(csv)
      decreases |rest|
    {
      SplitCsvStep(reasons, rest);
      reasons := reasons + NonEmpty(FirstItem(rest));
      rest := AfterItem(rest);
    }
  }

  /** deserialize_risk */
  method DeserializeRisk(text: string) returns (risk: RiskHint)
    ensures risk == GetRisk(text)
  {
    var level := JsonGetString(text, "level");
    if level == "" { level := "low"; }
    var csv := JsonGetString(text, "reasons_csv");
    var reasons := SplitReasons(csv);
    risk := RiskHint(level, reasons);
  }

  // ----- Change records ------------------------------------------------------------------

  function BoolText(b: bool): string { if b then "true" else "false" }

  /** The fields of a change record before its risk, in writing order. */
  function ChangeFields(c: StagedChange): (fs: seq<Field>)
    ensures |fs| == 21
  {
    [ Field("change_id", StringValue(c.changeId)),
      Field("session_id", StringValue(c.sessionId)),
      Field("operation", StringValue(c.operation)),
      Field("path", StringValue(c.path)),
      Field("line_start", Decimal(c.lineStart)),
      Field("line_end", Decimal(c.lineEnd)),
      Field("expected_content", StringValue(c.expectedContent)),
      Field("base_mtime", StringValue(c.baseMtime)),
      Field("base_hash", StringValue(c.baseHash)),
      Field("new_content", StringValue(c.newContent)),
      Field("selector_query", StringValue(c.selector.query)),
      Field("selector_exact_path", StringValue(c.selector.exactPath)),
      Field("selector_directory_prefix", StringValue(c.selector.directoryPrefix)),
      Field("selector_extension", StringValue(c.selector.extension)),
      Field("selector_anchor_before", StringValue(c.selector.anchorBefore)),
      Field("selector_anchor_after", StringValue(c.selector.anchorAfter)),
      Field("selector_occurrence", Decimal(c.selector.occurrence)),
      Field("selector_from_end", BoolText(c.selector.fromEnd)),
      Field("selector_reason", StringValue(c.selectorReason)),
      Field("anchor", StringValue(c.anchor)),
      Field("created_at", StringValue(c.createdAt)) ]
  }

  /** serialize_change */
  function SerializedChange(c: StagedChange): string
  {
    "{" + RenderEach(ChangeFields(c)) + Render(Field("risk", SerializedRisk(c.risk))) + "}"
  }

  /** The closing brace that brings the count back to zero; braces inside strings count too. */
  function BraceEnd(text: string, i: nat, depth: int): (r: Option<nat>)
    requires i <= |text|
    ensures r.Some? ==> i <= r.value < |text|
    decreases |text| - i
  {
    if i == |text| then None
    else if text[i] == '{' then BraceEnd(text, i + 1, depth + 1)
    else if text[i] == '}' then if depth == 1 then Some(i) else BraceEnd(text, i + 1, depth - 1)
    else BraceEnd(text, i + 1, depth)
  }

  function RiskOf(text: string): RiskHint
  {
    match Find(text, "\"risk\":", 0)
    case None => DEFAULT_RISK
    case Some(p) =>
      match Find(text, "{", p)
      case None => DEFAULT_RISK
      case Some(b) =>
        match BraceEnd(text, b, 0)
        case None => DEFAULT_RISK
        case Some(e) => GetRisk(text[b..e + 1])
  }

  /** deserialize_change */
  function DeserializedChange(text: string): StagedChange
  {
    StagedChange(
      GetString(text, "change_id"), GetString(text, "session_id"),
      GetString(text, "operation"), GetString(text, "path"),
      GetSize(text, "line_start", 0), GetSize(text, "line_end", 0),
      Selector(
        GetString(text, "selector_query"), GetString(text, "selector_exact_path"),
        GetString(text, "selector_directory_prefix"), GetString(text, "selector_extension"),
        GetString(text, "selector_anchor_before"), GetString(text, "selector_anchor_after"),
        GetSize(text, "selector_occurrence", 1), GetBool(text, "selector_from_end", false)),
      GetString(text, "expected_content"), GetString(text, "base_mtime"),
      GetString(text, "base_hash"), GetString(text, "new_content"),
      GetString(text, "selector_reason"), GetString(text, "anchor"),
      RiskOf(text), GetString(text, "created_at"))
  }

  method ReadRisk(text: string) returns (risk: RiskHint)
    ensures risk == RiskOf(text)
  {
    hide GetRisk, Find;
    risk := DEFAULT_RISK;
    var at := Find(text, "\"risk\":", 0);
    if at.None? { return; }
    var open := Find(text, "{", at.value);
    if open.None? { return; }
    var depth := 0;
    var i := open.value;
    while i < |text|
      invariant open.value <= i <= |text|
      invariant BraceEnd(text, open.value, 0) == BraceEnd(text, i, depth)
    {
      if text[i] == '{' {
        depth := depth + 1;
      } else if text[i] == '}' {
        depth := depth - 1;
        if depth == 0 { break; }
      }
      i := i + 1;
    }
    if i < |text| { risk := DeserializeRisk(text[open.value..i + 1]); }
  }

  // ----- The keys ------------------------------------------------------------------------

  /** A position for every key of a record; the codec's keys are told apart by it. */
  function KeySlot(key: string): int
  {
    if |key| < 2 then -1 else
    match |key|
    case 4 => if key[0] == 'p' then 3 else 21
    case 6 => 19
    case 8 => 5
    case 9 => if key[0] == 'c' then 0 else if key[0] == 'o' then 2 else 8
    case 10 => if key[0] == 's' then 1 else if key[0] == 'l' then 4 else if key[0] == 'b' then 7 else 20
    case 11 => 9
    case 14 => 10
    case 15 => 18
    case 16 => 6
    case 17 => 17
    case 18 => 13
    case 19 => if key[9] == 'e' then 11 else 16
    case 21 => 15
    case 22 => 14
    case 25 => 12
    case _ => -1
  }

  lemma ChangeKeys(c: StagedChange)
    ensures forall i :: 0 <= i < 21 ==> KeySlot(ChangeFields(c)[i].key) == i
  {
  }

  lemma ShortKeys()
    ensures IsKey("change_id") && IsKey("session_id") && IsKey("operation") && IsKey("path")
    ensures IsKey("line_start") && IsKey("line_end") && IsKey("base_mtime") && IsKey("base_hash")
    ensures IsKey("new_content") && IsKey("anchor") && IsKey("created_at") && IsKey("risk")
  {
  }

  lemma SelectorKeys()
    ensures IsKey("selector_query") && IsKey("selector_exact_path") && IsKey("selector_extension")
    ensures IsKey("selector_occurrence") && IsKey("selector_from_end") && IsKey("selector_reason")
  {
  }

  lemma LongKeys()
    ensures IsKey("expected_content") && IsKey("selector_directory_prefix")
    ensures IsKey("selector_anchor_before") && IsKey("selector_anchor_after")
  {
  }

  lemma ChangeKeysAreKeys(c: StagedChange)
    ensures forall i :: 0 <= i < 21 ==> IsKey(ChangeFields(c)[i].key)
  {
    hide IsKey;
    ShortKeys();
    SelectorKeys();
    LongKeys();
  }
}

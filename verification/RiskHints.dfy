/** The risk hint of a staged change (session_service.cpp: evaluate_risk). */
module RiskHints {
  import opened TextLines
  import opened ChangeRecord
  import opened ChangeRoundTrip

  function CountNewlines(s: string): nat
  {
    if s == [] then 0 else CountNewlines(s[..|s| - 1]) + if s[|s| - 1] == '\n' then 1 else 0
  }

  function When(condition: bool, reason: string): seq<string> { if condition then [reason] else [] }

  function ReplacedLines(c: StagedChange): nat
  {
    if c.lineEnd >= c.lineStart && c.lineStart != 0 then c.lineEnd - c.lineStart + 1 else 0
  }

  function NewLines(c: StagedChange): nat
  {
    CountNewlines(c.newContent) + if c.newContent != "" then 1 else 0
  }

  predicate BlockEdit(c: StagedChange)
  {
    c.operation == "replace_block" || c.operation == "insert_before" || c.operation == "insert_after" ||
    c.operation == "delete_block"
  }

  /** The reasons in the order they are checked: the target, the new text, the selector. */
  function Reasons(c: StagedChange, candidates: nat): seq<string>
  {
    TargetReasons(c, candidates) + TextReasons(c) + SelectorReasons(c, candidates)
  }

  function TargetReasons(c: StagedChange, candidates: nat): seq<string>
  {
    When(candidates > 1, "multiple-candidates") +
    When(c.operation == "delete_block", "destructive-delete") +
    When(c.operation == "replace_range" && ReplacedLines(c) >= 8, "large-range-replace") +
    When(|c.expectedContent| >= 160, "large-target-block")
  }

  function TextReasons(c: StagedChange): seq<string>
  {
    When(NewLines(c) >= 10, "large-insert") +
    When(NewLines(c) >= 20, "very-large-insert")
  }

  function SelectorReasons(c: StagedChange, candidates: nat): seq<string>
  {
    When(BlockEdit(c) && c.selector.anchorBefore == "" && c.selector.anchorAfter == "", "no-anchor") +
    When(c.selector.query != "" && |c.selector.query| <= 4, "short-selector-query") +
    When(candidates > 3, "low-selector-specificity")
  }

  /** evaluate_risk */
  function EvaluatedRisk(c: StagedChange, candidates: nat): RiskHint
  {
    var reasons := Reasons(c, candidates);
    RiskHint(
      if candidates > 1 || "destructive-delete" in reasons || "very-large-insert" in reasons ||
         "low-selector-specificity" in reasons then "high"
      else if reasons != [] then "medium"
      else "low",
      reasons)
  }

  /** What edit_replace_content, and with it every JSON, YAML and Markdown edit, makes of the hint. */
  function RewriteRisk(c: StagedChange): RiskHint
  {
    var risk := EvaluatedRisk(c, 1);
    if |c.expectedContent| < 512 then risk
    else RiskHint(if risk.level == "low" then "medium" else risk.level, risk.reasons + ["whole-file-rewrite"])
  }

  /** The hint a change is staged with by one of the edit calls. */
  predicate OwnHint(c: StagedChange, candidates: nat)
  {
    c.risk == EvaluatedRisk(c, candidates) || c.risk == RewriteRisk(c)
  }

  // ----- What the hint says --------------------------------------------------------------

  /** The reasons, by what is the case: the number of candidates, a deletion, a range of eight lines and more, an
      expected text of 160 bytes and more, ten and twenty new lines and more, a block edit without anchors,
      and a query of four bytes and less. */
  lemma ReasonsSay(c: StagedChange, candidates: nat, r: string)
    ensures r in EvaluatedRisk(c, candidates).reasons <==>
            (r == "multiple-candidates" && candidates > 1) ||
            (r == "destructive-delete" && c.operation == "delete_block") ||
            (r == "large-range-replace" && c.operation == "replace_range" && 0 < c.lineStart && c.lineStart + 7 <= c.lineEnd) ||
            (r == "large-target-block" && |c.expectedContent| >= 160) ||
            (r == "large-insert" && c.newContent != "" && |Pieces(c.newContent)| >= 10) ||
            (r == "very-large-insert" && c.newContent != "" && |Pieces(c.newContent)| >= 20) ||
            (r == "no-anchor" && c.selector.anchorBefore == c.selector.anchorAfter == "" &&
             c.operation in {"replace_block", "insert_before", "insert_after", "delete_block"}) ||
            (r == "short-selector-query" && 1 <= |c.selector.query| <= 4) ||
            (r == "low-selector-specificity" && candidates > 3)
  {
    hide TargetReasons, TextReasons, SelectorReasons, Pieces;
    NewlinesArePieces(c.newContent);
    TargetSays(c, candidates, r);
    TextSays(c, r);
    SelectorSays(c, candidates, r);
  }

  lemma TargetSays(c: StagedChange, candidates: nat, r: string)
    ensures r in TargetReasons(c, candidates) <==>
            (candidates > 1 && r == "multiple-candidates") ||
            (c.operation == "delete_block" && r == "destructive-delete") ||
            (c.operation == "replace_range" && ReplacedLines(c) >= 8 && r == "large-range-replace") ||
            (|c.expectedContent| >= 160 && r == "large-target-block")
  {
    hide When, ReplacedLines;
    WhenSays(candidates > 1, "multiple-candidates", r);
    WhenSays(c.operation == "delete_block", "destructive-delete", r);
    WhenSays(c.operation == "replace_range" && ReplacedLines(c) >= 8, "large-range-replace", r);
    WhenSays(|c.expectedContent| >= 160, "large-target-block", r);
  }

  lemma TextSays(c: StagedChange, r: string)
    ensures r in TextReasons(c) <==>
            (NewLines(c) >= 10 && r == "large-insert") || (NewLines(c) >= 20 && r == "very-large-insert")
  {
    hide When, NewLines;
    WhenSays(NewLines(c) >= 10, "large-insert", r);
    WhenSays(NewLines(c) >= 20, "very-large-insert", r);
  }

  lemma SelectorSays(c: StagedChange, candidates: nat, r: string)
    ensures r in SelectorReasons(c, candidates) <==>
            (BlockEdit(c) && c.selector.anchorBefore == "" && c.selector.anchorAfter == "" && r == "no-anchor") ||
            (c.selector.query != "" && |c.selector.query| <= 4 && r == "short-selector-query") ||
            (candidates > 3 && r == "low-selector-specificity")
  {
    hide When, BlockEdit;
    WhenSays(BlockEdit(c) && c.selector.anchorBefore == "" && c.selector.anchorAfter == "", "no-anchor", r);
    WhenSays(c.selector.query != "" && |c.selector.query| <= 4, "short-selector-query", r);
    WhenSays(candidates > 3, "low-selector-specificity", r);
  }

  lemma WhenSays(condition: bool, reason: string, r: string)
    ensures r in When(condition, reason) <==> condition && r == reason
  {
  }

  lemma {:induction false} NewlinesArePieces(s: string)
    ensures |Pieces(s)| == CountNewlines(s) + 1
  {
    hide Pieces;
    if s == [] {
      PiecesNil();
    } else {
      NewlinesArePieces(s[..|s| - 1]);
      assert s == s[..|s| - 1] + [s[|s| - 1]];
      PiecesChar(s[..|s| - 1], s[|s| - 1]);
    }
  }

  /** The level: high for several candidates, a deletion and twenty new lines; else medium for any other reason;
      and a rewrite of 512 bytes and more is never low. */
  lemma LevelSays(c: StagedChange, candidates: nat)
    ensures EvaluatedRisk(c, candidates).level ==
            if candidates > 1 || c.operation == "delete_block" || (c.newContent != "" && |Pieces(c.newContent)| >= 20) then "high"
            else if EvaluatedRisk(c, candidates).reasons != [] then "medium"
            else "low"
    ensures RewriteRisk(c).level ==
            if EvaluatedRisk(c, 1).level == "low" && |c.expectedContent| >= 512 then "medium" else EvaluatedRisk(c, 1).level
    ensures |c.expectedContent| >= 512 <==> "whole-file-rewrite" in RewriteRisk(c).reasons
  {
    hide Reasons, Pieces;
    ReasonsSay(c, candidates, "destructive-delete");
    ReasonsSay(c, candidates, "very-large-insert");
    ReasonsSay(c, candidates, "low-selector-specificity");
    ReasonsSay(c, 1, "whole-file-rewrite");
  }

  // ----- Every hint can be stored --------------------------------------------------------

  predicate Word(s: string) { s != "" && CommaFree(s) && BraceFree(s) }

  predicate Words(reasons: seq<string>)
  {
    forall i :: 0 <= i < |reasons| ==> Word(reasons[i])
  }

  lemma WordsConcat(a: seq<string>, b: seq<string>)
    requires Words(a) && Words(b)
    ensures Words(a + b)
  {
  }

  lemma TheWords()
    ensures Word("multiple-candidates") && Word("destructive-delete") && Word("large-range-replace")
    ensures Word("large-target-block") && Word("large-insert") && Word("very-large-insert")
    ensures Word("no-anchor") && Word("short-selector-query") && Word("low-selector-specificity")
  {
    hide Word;
    SomeWords();
    MoreWords();
    LastWords();
  }

  lemma SomeWords()
    ensures Word("multiple-candidates") && Word("destructive-delete") && Word("large-range-replace")
  {
  }

  lemma MoreWords()
    ensures Word("large-target-block") && Word("large-insert") && Word("very-large-insert")
  {
  }

  lemma LastWords()
    ensures Word("no-anchor") && Word("short-selector-query") && Word("low-selector-specificity")
  {
  }

  lemma ReasonWords(c: StagedChange, n: nat)
    ensures Words(Reasons(c, n))
  {
    hide Reasons, Word, Pieces;
    TheWords();
    var reasons := Reasons(c, n);
    forall i | 0 <= i < |reasons| ensures Word(reasons[i]) {
      assert reasons[i] in reasons;
      ReasonsSay(c, n, reasons[i]);
    }
  }

  lemma {:induction false} CsvBraceFree(reasons: seq<string>)
    requires Words(reasons)
    ensures BraceFree(Csv(reasons))
  {
    if |reasons| > 1 { CsvBraceFree(reasons[..|reasons| - 1]); }
  }

  lemma LevelWords(level: string, reasons: seq<string>)
    requires Words(reasons) && level in {"low", "medium", "high"}
    ensures Storable(RiskHint(level, reasons))
  {
    hide Csv, Balance;
    CsvBraceFree(reasons);
    assert BraceFree("high") && BraceFree("medium") && BraceFree("low");
    BalanceBraceFree(level, 1);
    BalanceBraceFree(Csv(reasons), 1);
  }

  lemma RewriteWord()
    ensures Words(["whole-file-rewrite"])
  {
  }

  /** The hint of every change survives being stored and read back, also when a whole-file rewrite
      adds to it. */
  lemma HintsAreStorable(c: StagedChange, candidates: nat)
    ensures Storable(EvaluatedRisk(c, candidates)) && Storable(RewriteRisk(c))
  {
    hide Reasons, Words, Storable;
    ReasonWords(c, candidates);
    ReasonWords(c, 1);
    RewriteWord();
    WordsConcat(Reasons(c, 1), ["whole-file-rewrite"]);
    var risk, rewrite := EvaluatedRisk(c, candidates), RewriteRisk(c);
    LevelWords(risk.level, risk.reasons);
    LevelWords(rewrite.level, rewrite.reasons);
  }

  /** So a change staged with its own hint, by whichever edit call, is read back exactly as staged. */
  lemma StagedWithHint(c: StagedChange, candidates: nat)
    requires SizesFit(c) && OwnHint(c, candidates)
    ensures DeserializedChange(SerializedChange(c)) == c
  {
    hide DeserializedChange, SerializedChange, Storable, EvaluatedRisk, RewriteRisk, SizesFit;
    HintsAreStorable(c, candidates);
    StoreThenLoad(c);
  }
}

/** A stored change is a JSON object, by the reader of structure_adapters.cpp as well as by the key scan that
    session_service.cpp reads it with. */
module RecordJson {
  import opened Text
  import opened FlatRecord
  import opened ChangeRecord
  import opened JsonText
  import opened JsonLayouts
  import opened JsonRoundTrip

  /** The members of a stored change. */
  function RecordMembers(c: StagedChange): seq<Member>
  {
    [ Member("change_id", Str(c.changeId)),
      Member("session_id", Str(c.sessionId)),
      Member("operation", Str(c.operation)),
      Member("path", Str(c.path)),
      Member("line_start", Number(Decimal(c.lineStart))),
      Member("line_end", Number(Decimal(c.lineEnd))),
      Member("expected_content", Str(c.expectedContent)),
      Member("base_mtime", Str(c.baseMtime)),
      Member("base_hash", Str(c.baseHash)),
      Member("new_content", Str(c.newContent)),
      Member("selector_query", Str(c.selector.query)),
      Member("selector_exact_path", Str(c.selector.exactPath)),
      Member("selector_directory_prefix", Str(c.selector.directoryPrefix)),
      Member("selector_extension", Str(c.selector.extension)),
      Member("selector_anchor_before", Str(c.selector.anchorBefore)),
      Member("selector_anchor_after", Str(c.selector.anchorAfter)),
      Member("selector_occurrence", Number(Decimal(c.selector.occurrence))),
      Member("selector_from_end", Bool(c.selector.fromEnd)),
      Member("selector_reason", Str(c.selectorReason)),
      Member("anchor", Str(c.anchor)),
      Member("created_at", Str(c.createdAt)) ]
  }

  function RiskMembers(risk: RiskHint): seq<Member>
  {
    [Member("level", Str(risk.level)), Member("reasons_csv", Str(Csv(risk.reasons)))]
  }

  // ----- One field -----------------------------------------------------------------------

  /** The value is printed as the text of the field, on whatever depth. */
  ghost predicate Holds(f: Field, m: Member, s: Spelled)
  {
    IsKey(f.key) && m.key == f.key && Proper(s) && Spell(s) == f.raw && Meant(s) == m.value
  }

  function PairOf(key: string, s: Spelled): Pair { Pair("", PiecesOf(key), "", Item("", s, "")) }

  lemma {:induction false} KeyPlain(key: string)
    requires forall i :: 0 <= i < |key| ==> KeyChar(key[i])
    ensures Escaped(key) == key
  {
    hide EscapeChar, KeyChar;
    if key != [] {
      var front, c := key[..|key| - 1], key[|key| - 1];
      KeyPlain(front);
      CharPlain(c);
      assert key == front + [c];
    }
  }

  lemma CharPlain(c: char)
    requires KeyChar(c)
    ensures EscapeChar(c) == [c]
  {
  }

  lemma Empties(q: string, v: string)
    ensures "" + q + "" + ":" + ("" + v + "") == q + ":" + v
  {
  }

  lemma KeyQuoted(key: string)
    requires IsKey(key)
    ensures QuotedText(PiecesOf(key)) == Quoted(key) && ProperPieces(PiecesOf(key)) && Said(PiecesOf(key)) == key
  {
    hide PiecesOf, QuotedText, ProperPieces, Said, Escaped;
    KeyPlain(key);
    PiecesOfString(key);
  }

  lemma PairRenders(f: Field, m: Member, s: Spelled)
    requires Holds(f, m, s)
    ensures var p := PairOf(f.key, s);
            FieldText(p) == Render(f) && ProperField(p) && Member(Said(p.key), Meant(p.item.value)) == m
  {
    hide Spell, Proper, Meant, PiecesOf, Said, QuotedText, ProperPieces, IsKey, Quoted;
    KeyQuoted(f.key);
    NoBlanks();
    Empties(Quoted(f.key), Spell(s));
  }

  lemma TextHolds(key: string, s: string)
    requires IsKey(key)
    ensures Holds(Field(key, StringValue(s)), Member(key, Str(s)), Chars(PiecesOf(s)))
  {
    hide PiecesOf, QuotedText, StringValue, ProperPieces, Said;
    PiecesOfString(s);
  }

  lemma {:induction false} DecimalText(n: nat)
    ensures NumberText(Decimal(n))
  {
    if n >= 10 { DecimalText(n / 10); }
  }

  lemma NumberHolds(key: string, n: nat)
    requires IsKey(key)
    ensures Holds(Field(key, Decimal(n)), Member(key, Number(Decimal(n))), Numeral(Decimal(n)))
  {
    DecimalText(n);
  }

  lemma BoolHolds(key: string, b: bool)
    requires IsKey(key)
    ensures Holds(Field(key, BoolText(b)), Member(key, Bool(b)), Word(Bool(b)))
  {
  }

  // ----- All fields ----------------------------------------------------------------------

  function PairsOf(fs: seq<Field>, ss: seq<Spelled>): (ps: seq<Pair>)
    requires |fs| == |ss|
    ensures |ps| == |fs| && forall i :: 0 <= i < |fs| ==> ps[i] == PairOf(fs[i].key, ss[i])
  {
    seq(|fs|, i requires 0 <= i < |fs| => PairOf(fs[i].key, ss[i]))
  }

  lemma {:induction false} RenderFirst(fs: seq<Field>)
    requires fs != []
    ensures RenderEach(fs) == Render(fs[0]) + "," + RenderEach(fs[1..])
  {
    hide Render;
    if |fs| > 1 {
      var front := fs[..|fs| - 1];
      RenderFirst(front);
      assert fs[1..][..|fs| - 2] == front[1..];
    } else {
      assert fs[..0] == [] && fs[1..] == [];
    }
  }

  /** A record of fields: all but the last with a comma behind them. */
  lemma {:induction false} FieldsSpell(fs: seq<Field>, last: Field, ms: seq<Member>, ss: seq<Spelled>)
    requires |ms| == |ss| == |fs| + 1 && (forall i :: 0 <= i < |fs| ==> Holds(fs[i], ms[i], ss[i])) && Holds(last, ms[|fs|], ss[|fs|])
    ensures var ps := PairsOf(fs + [last], ss);
            SpellFields(ps) == RenderEach(fs) + Render(last) && FieldsMeant(ps) == ms &&
            forall i :: 0 <= i < |ps| ==> ProperField(ps[i])
    decreases |fs|
  {
    hide Holds, Render, RenderEach, PairOf, SpellFields, FieldsMeant, FieldText, ProperField, Said, Meant;
    var ps := PairsOf(fs + [last], ss);
    FieldsFirst(ps);
    MeantFirst(ps);
    if fs == [] {
      PairRenders(last, ms[0], ss[0]);
      NothingMeant();
      NothingRendered();
      assert ms == [ms[0]] && ps[1..] == [];
      assert "" + Render(last) == Render(last) && FieldText(ps[0]) + "" == FieldText(ps[0]);
    } else {
      PairRenders(fs[0], ms[0], ss[0]);
      FieldsSpell(fs[1..], last, ms[1..], ss[1..]);
      RenderFirst(fs);
      assert ps[1..] == PairsOf(fs[1..] + [last], ss[1..]);
      assert ms == [ms[0]] + ms[1..];
      RenderJoins(Render(fs[0]), RenderEach(fs[1..]), Render(last));
    }
  }

  lemma NothingRendered()
    ensures RenderEach([]) == ""
  {
  }

  lemma RenderJoins(a: string, b: string, c: string)
    ensures a + ("," + (b + c)) == a + "," + b + c
  {
  }

  /** A record of fields in braces spells the object of its members. */
  lemma ObjectSpelled(fs: seq<Field>, last: Field, ms: seq<Member>, ss: seq<Spelled>) returns (s: Spelled)
    requires |ms| == |ss| == |fs| + 1 && (forall i :: 0 <= i < |fs| ==> Holds(fs[i], ms[i], ss[i])) && Holds(last, ms[|fs|], ss[|fs|])
    ensures Proper(s) && Meant(s) == Object(ms) && Spell(s) == "{" + RenderEach(fs) + Render(last) + "}"
  {
    hide Holds, Render, RenderEach, SpellFields, FieldsMeant, ProperField;
    var ps := PairsOf(fs + [last], ss);
    FieldsSpell(fs, last, ms, ss);
    NoBlanks();
    s := Keyed("", ps);
    assert "{" + (RenderEach(fs) + Render(last)) + "}" == "{" + RenderEach(fs) + Render(last) + "}";
  }

  // ----- The record ----------------------------------------------------------------------

  lemma RiskSpelled(risk: RiskHint) returns (s: Spelled)
    ensures Proper(s) && Meant(s) == Object(RiskMembers(risk)) && Spell(s) == SerializedRisk(risk)
  {
    hide Holds, Render, Escaped, Csv, JoinEscaped;
    var f, g := Field("level", StringValue(risk.level)), Field("reasons_csv", StringValue(Csv(risk.reasons)));
    RiskKeys();
    TextHolds("level", risk.level);
    TextHolds("reasons_csv", Csv(risk.reasons));
    JoinEscapedIsEscapedCsv(risk.reasons);
    s := ObjectSpelled([f], g, RiskMembers(risk),
                       [Chars(PiecesOf(risk.level)), Chars(PiecesOf(Csv(risk.reasons)))]);
    OneRendered(f);
    assert "{" + (Render(f) + ",") + Render(g) + "}" == "{" + Render(f) + "," + Render(g) + "}";
  }

  lemma OneRendered(f: Field)
    ensures RenderEach([f]) == Render(f) + ","
  {
    assert [f][..0] == [];
  }

  lemma RiskKeys()
    ensures IsKey("level") && IsKey("reasons_csv") && IsKey("risk")
  {
  }

  function RecordSpelled(c: StagedChange): (ss: seq<Spelled>)
    ensures |ss| == 21
  {
    [ Chars(PiecesOf(c.changeId)), Chars(PiecesOf(c.sessionId)), Chars(PiecesOf(c.operation)), Chars(PiecesOf(c.path)),
      Numeral(Decimal(c.lineStart)), Numeral(Decimal(c.lineEnd)),
      Chars(PiecesOf(c.expectedContent)), Chars(PiecesOf(c.baseMtime)), Chars(PiecesOf(c.baseHash)), Chars(PiecesOf(c.newContent)),
      Chars(PiecesOf(c.selector.query)), Chars(PiecesOf(c.selector.exactPath)), Chars(PiecesOf(c.selector.directoryPrefix)),
      Chars(PiecesOf(c.selector.extension)), Chars(PiecesOf(c.selector.anchorBefore)), Chars(PiecesOf(c.selector.anchorAfter)),
      Numeral(Decimal(c.selector.occurrence)), Word(Bool(c.selector.fromEnd)),
      Chars(PiecesOf(c.selectorReason)), Chars(PiecesOf(c.anchor)), Chars(PiecesOf(c.createdAt)) ]
  }

  /** The field i of a record holds its member. */
  ghost predicate FieldHolds(c: StagedChange, i: nat)
    requires i < 21
  {
    |RecordMembers(c)| == 21 && Holds(ChangeFields(c)[i], RecordMembers(c)[i], RecordSpelled(c)[i])
  }

  lemma KeysOne()
    ensures IsKey("change_id") && IsKey("session_id") && IsKey("operation") && IsKey("path") && IsKey("line_start")
    ensures IsKey("line_end") && IsKey("expected_content") && IsKey("base_mtime") && IsKey("base_hash") && IsKey("new_content")
  {
  }

  lemma KeysTwo()
    ensures IsKey("selector_query") && IsKey("selector_exact_path") && IsKey("selector_directory_prefix") && IsKey("selector_extension")
    ensures IsKey("selector_anchor_before") && IsKey("selector_anchor_after")
  {
  }

  lemma KeysThree()
    ensures IsKey("selector_occurrence") && IsKey("selector_from_end") && IsKey("selector_reason") && IsKey("anchor") && IsKey("created_at")
  {
  }

  lemma FirstFields(c: StagedChange)
    ensures forall i :: 0 <= i < 10 ==> FieldHolds(c, i)
  {
    hide Holds, IsKey, PiecesOf, Decimal, StringValue;
    KeysOne();
    TextHolds("change_id", c.changeId);
    TextHolds("session_id", c.sessionId);
    TextHolds("operation", c.operation);
    TextHolds("path", c.path);
    NumberHolds("line_start", c.lineStart);
    NumberHolds("line_end", c.lineEnd);
    TextHolds("expected_content", c.expectedContent);
    TextHolds("base_mtime", c.baseMtime);
    TextHolds("base_hash", c.baseHash);
    TextHolds("new_content", c.newContent);
  }

  lemma SelectorFields(c: StagedChange)
    ensures forall i :: 10 <= i < 16 ==> FieldHolds(c, i)
  {
    hide Holds, IsKey, PiecesOf, Decimal, StringValue;
    KeysTwo();
    TextHolds("selector_query", c.selector.query);
    TextHolds("selector_exact_path", c.selector.exactPath);
    TextHolds("selector_directory_prefix", c.selector.directoryPrefix);
    TextHolds("selector_extension", c.selector.extension);
    TextHolds("selector_anchor_before", c.selector.anchorBefore);
    TextHolds("selector_anchor_after", c.selector.anchorAfter);
  }

  lemma LastFields(c: StagedChange)
    ensures forall i :: 16 <= i < 21 ==> FieldHolds(c, i)
  {
    hide Holds, IsKey, PiecesOf, Decimal, StringValue, BoolText;
    KeysThree();
    NumberHolds("selector_occurrence", c.selector.occurrence);
    BoolHolds("selector_from_end", c.selector.fromEnd);
    TextHolds("selector_reason", c.selectorReason);
    TextHolds("anchor", c.anchor);
    TextHolds("created_at", c.createdAt);
  }

  lemma AllFields(c: StagedChange)
    ensures |RecordMembers(c)| == 21
    ensures forall i :: 0 <= i < 21 ==> Holds(ChangeFields(c)[i], RecordMembers(c)[i], RecordSpelled(c)[i])
  {
    hide Holds, ChangeFields, RecordMembers, RecordSpelled;
    FirstFields(c);
    SelectorFields(c);
    LastFields(c);
    assert FieldHolds(c, 0);
    forall i | 0 <= i < 21 ensures Holds(ChangeFields(c)[i], RecordMembers(c)[i], RecordSpelled(c)[i]) {
      assert FieldHolds(c, i);
    }
  }

  /** Whatever a change holds, its stored text parses as the JSON object of its fields and its risk, in writing
      order. */
  lemma StoredIsJson(c: StagedChange)
    ensures ParseJson(SerializedChange(c)) == Some(Object(RecordMembers(c) + [Member("risk", Object(RiskMembers(c.risk)))]))
  {
    hide Holds, Render, RenderEach, ChangeFields, RecordMembers, RiskMembers, SerializedRisk, RecordSpelled, ParseJson, Proper, Meant, Spell;
    AllFields(c);
    RiskKeys();
    var risk := RiskSpelled(c.risk);
    var last, member := Field("risk", SerializedRisk(c.risk)), Member("risk", Object(RiskMembers(c.risk)));
    assert Holds(last, member, risk) by { RiskHolds(c.risk, risk); }
    var s := ObjectSpelled(ChangeFields(c), last, RecordMembers(c) + [member], RecordSpelled(c) + [risk]);
    NoBlanks();
    assert SerializedChange(c) == "" + Spell(s) + "";
    assert SpelledAs(SerializedChange(c), Meant(s), "", s, "");
    ReadsSpellings(SerializedChange(c), Meant(s));
  }

  lemma RiskHolds(risk: RiskHint, s: Spelled)
    requires Proper(s) && Meant(s) == Object(RiskMembers(risk)) && Spell(s) == SerializedRisk(risk)
    ensures Holds(Field("risk", SerializedRisk(risk)), Member("risk", Object(RiskMembers(risk))), s)
  {
    hide SerializedRisk, RiskMembers, Proper, Meant, Spell;
    RiskKeys();
  }
}

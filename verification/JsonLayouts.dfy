/** The JSON texts the reader of structure_adapters.cpp accepts, and what it makes of each: the spelling of a
    value with all its blanks, number texts and escapes. */
module JsonLayouts {
  import opened Text
  import opened FlatRecord
  import opened JsonText

  /** One character of a string: itself, or behind a backslash. */
  datatype Piece = Plain(c: char) | Escape(e: char)

  datatype Spelled =
    | Word(value: Json)
    | Numeral(scalar: string)
    | Chars(pieces: seq<Piece>)
    | Listed(inside: string, items: seq<Item>)
    | Keyed(inside: string, fields: seq<Pair>)

  /** A value with the blanks around it. */
  datatype Item = Item(before: string, value: Spelled, after: string)

  /** A member with the blanks around its key, its colon and its value. */
  datatype Pair = Pair(before: string, key: seq<Piece>, between: string, item: Item)

  // ----- The text of a spelling ----------------------------------------------------------

  function PieceText(p: Piece): string
  {
    match p
    case Plain(c) => [c]
    case Escape(e) => "\\" + [e]
  }

  function PiecesText(pieces: seq<Piece>): string
  {
    if pieces == [] then "" else PieceText(pieces[0]) + PiecesText(pieces[1..])
  }

  function QuotedText(pieces: seq<Piece>): string { "\"" + PiecesText(pieces) + "\"" }

  function WordText(value: Json): string
  {
    match value
    case Bool(true) => "true"
    case Bool(false) => "false"
    case _ => "null"
  }

  function Spell(s: Spelled): string
  {
    match s
    case Word(value) => WordText(value)
    case Numeral(scalar) => scalar
    case Chars(pieces) => QuotedText(pieces)
    case Listed(inside, items) => "[" + (if items == [] then inside else SpellItems(items)) + "]"
    case Keyed(inside, fields) => "{" + (if fields == [] then inside else SpellFields(fields)) + "}"
  }

  function ItemText(item: Item): string { item.before + Spell(item.value) + item.after }

  function SpellItems(items: seq<Item>): string
  {
    if items == [] then ""
    else ItemText(items[0]) + if |items| == 1 then "" else "," + SpellItems(items[1..])
  }

  function FieldText(field: Pair): string
  {
    field.before + QuotedText(field.key) + field.between + ":" + ItemText(field.item)
  }

  function SpellFields(fields: seq<Pair>): string
  {
    if fields == [] then ""
    else FieldText(fields[0]) + if |fields| == 1 then "" else "," + SpellFields(fields[1..])
  }

  // ----- What may be spelled, and what it means ------------------------------------------

  predicate NumberText(s: string)
  {
    s != [] && forall i :: 0 <= i < |s| ==> s[i] in {'0', '1', '2', '3', '4', '5', '6', '7', '8', '9', '-', '+', '.', 'e', 'E'}
  }

  predicate ProperPieces(pieces: seq<Piece>)
  {
    forall i :: 0 <= i < |pieces| && pieces[i].Plain? ==> pieces[i].c != '"' && pieces[i].c != '\\'
  }

  predicate ProperItem(item: Item)
  {
    Blanks(item.before) && Proper(item.value) && Blanks(item.after)
  }

  predicate ProperField(field: Pair)
  {
    Blanks(field.before) && ProperPieces(field.key) && Blanks(field.between) && ProperItem(field.item)
  }

  predicate Proper(s: Spelled)
  {
    match s
    case Word(value) => value == Null || value.Bool?
    case Numeral(scalar) => NumberText(scalar)
    case Chars(pieces) => ProperPieces(pieces)
    case Listed(inside, items) => Blanks(inside) && forall i :: 0 <= i < |items| ==> ProperItem(items[i])
    case Keyed(inside, fields) => Blanks(inside) && forall i :: 0 <= i < |fields| ==> ProperField(fields[i])
  }

  function PieceSaid(p: Piece): char
  {
    match p
    case Plain(c) => c
    case Escape('b') => '\U{8}'
    case Escape('f') => '\U{C}'
    case Escape('n') => '\n'
    case Escape('r') => '\r'
    case Escape('t') => '\t'
    case Escape(e) => e
  }

  function Said(pieces: seq<Piece>): (s: string)
    ensures |s| == |pieces| && forall i :: 0 <= i < |pieces| ==> s[i] == PieceSaid(pieces[i])
  {
    seq(|pieces|, i requires 0 <= i < |pieces| => PieceSaid(pieces[i]))
  }

  function Meant(s: Spelled): Json
  {
    match s
    case Word(value) => value
    case Numeral(scalar) => Number(scalar)
    case Chars(pieces) => Str(Said(pieces))
    case Listed(_, items) => Array(ItemsMeant(items))
    case Keyed(_, fields) => Object(FieldsMeant(fields))
  }

  function ItemsMeant(items: seq<Item>): (out: seq<Json>)
    ensures |out| == |items|
  {
    if items == [] then [] else [Meant(items[0].value)] + ItemsMeant(items[1..])
  }

  function FieldsMeant(fields: seq<Pair>): (out: seq<Member>)
    ensures |out| == |fields|
  {
    if fields == [] then [] else [Member(Said(fields[0].key), Meant(fields[0].item.value))] + FieldsMeant(fields[1..])
  }

  // ----- Places in the text --------------------------------------------------------------

  lemma FirstChar(text: string, p: nat, s: string)
    requires At(text, p, s) && s != []
    ensures p < |text| && text[p] == s[0]
  {
  }

  /** Blanks and then something else: the reader lands on the something else. */
  lemma SkipOver(text: string, p: nat, blank: string, c: char)
    requires At(text, p, blank) && Blanks(blank)
    requires At(text, p + |blank|, [c]) && !IsSpace(c)
    ensures SkipSpace(text, p) == p + |blank|
  {
    BlanksAreBlank(blank);
    AtSingle(text, p + |blank|, c);
    forall k | p <= k < p + |blank| ensures IsSpace(text[k]) {
      assert text[k] == blank[k - p];
    }
    SkipSpaceUnique(text, p, p + |blank|);
  }

  lemma ExpectOver(text: string, p: nat, blank: string, found: char, c: char)
    requires At(text, p, blank) && Blanks(blank)
    requires At(text, p + |blank|, [found]) && !IsSpace(found)
    ensures Expect(text, p, c) == if c == found then Some(p + |blank| + 1) else None
  {
    hide At, Blanks;
    AtSingle(text, p + |blank|, found);
    SkipOver(text, p, blank, found);
  }

  lemma SkipNone(text: string, p: nat)
    requires p < |text| && !IsSpace(text[p])
    ensures SkipSpace(text, p) == p
  {
  }

  /** What may stand behind a value without running into it. */
  predicate Ends(text: string, q: nat)
  {
    q >= |text| || !NumberChar(text[q])
  }

  /** What follows a value ends it: blanks, or what stands behind them. */
  lemma EndsBefore(text: string, q: nat, blank: string, c: char)
    requires At(text, q, blank) && Blanks(blank) && At(text, q + |blank|, [c]) && c in {',', ']', '}'}
    ensures Ends(text, q)
  {
    AtSingle(text, q + |blank|, c);
    if blank != [] { FirstChar(text, q, blank); }
  }

  // ----- Words, numbers and strings ------------------------------------------------------

  lemma {:induction false} NumberEndUnique(text: string, i: nat, j: nat)
    requires i <= j <= |text| && Ends(text, j)
    requires forall k :: i <= k < j ==> NumberChar(text[k])
    ensures NumberEnd(text, i) == j
    decreases j - i
  {
    if i < j { NumberEndUnique(text, i + 1, j); }
  }

  lemma NumberChars(s: string)
    ensures NumberText(s) <==> s != [] && forall i :: 0 <= i < |s| ==> NumberChar(s[i])
  {
    assert forall c :: NumberChar(c) <==>
      c in {'0', '1', '2', '3', '4', '5', '6', '7', '8', '9', '-', '+', '.', 'e', 'E'};
  }

  lemma NumeralParses(text: string, p: nat, scalar: string)
    requires NumberText(scalar) && At(text, p, scalar) && Ends(text, p + |scalar|)
    ensures ParseValue(text, p) == Done(Number(scalar), p + |scalar|)
  {
    hide ParseObject, ParseArray, ParseString;
    NumberChars(scalar);
    forall k | p <= k < p + |scalar| ensures NumberChar(text[k]) {
      assert text[k] == scalar[k - p];
    }
    NumberEndUnique(text, p, p + |scalar|);
    AtSlice(text, p, scalar);
    SkipSpaceUnique(text, p, p);
    assert !At(text, p, "true") by { assert "true"[0] == 't'; }
    assert !At(text, p, "false") by { assert "false"[0] == 'f'; }
    assert !At(text, p, "null") by { assert "null"[0] == 'n'; }
  }

  lemma WordParses(text: string, p: nat, value: Json)
    requires (value == Null || value.Bool?) && At(text, p, WordText(value))
    ensures ParseValue(text, p) == Done(value, p + |WordText(value)|)
  {
    hide ParseObject, ParseArray, ParseString, NumberEnd;
    assert text[p] == WordText(value)[0];
    SkipSpaceUnique(text, p, p);
    assert value != Bool(true) ==> !At(text, p, "true") by { assert "true"[0] == 't'; }
    assert value != Bool(false) ==> !At(text, p, "false") by { assert "false"[0] == 'f'; }
  }

  lemma PieceReads(text: string, i: nat, out: string, piece: Piece)
    requires ProperPieces([piece]) && At(text, i, PieceText(piece))
    ensures ReadString(text, i, out, JsonUnescape) ==
            ReadString(text, i + |PieceText(piece)|, out + [PieceSaid(piece)], JsonUnescape)
  {
    assert text[i] == PieceText(piece)[0];
    assert [piece][0] == piece;
    if piece.Escape? { assert text[i + 1] == PieceText(piece)[1]; }
  }

  lemma {:induction false} PiecesRead(text: string, i: nat, out: string, pieces: seq<Piece>)
    requires ProperPieces(pieces) && At(text, i, PiecesText(pieces)) && At(text, i + |PiecesText(pieces)|, "\"")
    ensures ReadString(text, i, out, JsonUnescape) == Some((out + Said(pieces), i + |PiecesText(pieces)| + 1))
    decreases |pieces|
  {
    hide At, PieceText, PieceSaid, JsonUnescape;
    if pieces == [] {
      AtSingle(text, i, '"');
      assert out + Said(pieces) == out;
    } else {
      var first, rest := pieces[0], pieces[1..];
      AtConcat(text, i, PieceText(first), PiecesText(rest));
      PieceReads(text, i, out, first);
      PiecesRead(text, i + |PieceText(first)|, out + [PieceSaid(first)], rest);
      assert out + [PieceSaid(first)] + Said(rest) == out + Said(pieces);
    }
  }

  lemma QuotedParses(text: string, p: nat, pieces: seq<Piece>)
    requires ProperPieces(pieces) && At(text, p, QuotedText(pieces))
    ensures p < |text| && text[p] == '"' && ParseString(text, p) == Done(Said(pieces), p + |QuotedText(pieces)|)
  {
    hide At, ProperPieces;
    AtConcat3(text, p, "\"", PiecesText(pieces), "\"");
    AtSingle(text, p, '"');
    SkipNone(text, p);
    PiecesRead(text, p + 1, [], pieces);
    assert [] + Said(pieces) == Said(pieces);
  }

  lemma QuotedValue(text: string, p: nat, pieces: seq<Piece>)
    requires ProperPieces(pieces) && At(text, p, QuotedText(pieces))
    ensures ParseValue(text, p) == Done(Str(Said(pieces)), p + |QuotedText(pieces)|)
  {
    hide ParseObject, ParseArray, ParseString, NumberEnd, ProperPieces, QuotedText;
    QuotedParses(text, p, pieces);
    SkipNone(text, p);
  }

  // ----- Blanks in front -----------------------------------------------------------------

  lemma ValueSkips(text: string, pos: nat)
    requires pos <= |text|
    ensures ParseValue(text, pos) == ParseValue(text, SkipSpace(text, pos))
    ensures ParseMember(text, pos) == ParseMember(text, SkipSpace(text, pos))
  {
    hide ParseObject, ParseArray, ParseString, At, NumberEnd;
    SkipTwice(text, pos);
  }

  lemma LoopsSkip(text: string, pos: nat, items: seq<Json>, members: seq<Member>)
    requires pos <= |text|
    ensures ParseElements(text, pos, items) == ParseElements(text, SkipSpace(text, pos), items)
    ensures ParseMembers(text, pos, members) == ParseMembers(text, SkipSpace(text, pos), members)
  {
    hide ParseValue, ParseMember, Expect, SkipSpace;
    ValueSkips(text, pos);
  }

  /** No spelling starts with a blank or with what closes a container. */
  lemma SpellStart(s: Spelled)
    requires Proper(s)
    ensures Spell(s) != [] && !IsSpace(Spell(s)[0]) && Spell(s)[0] !in {']', '}'}
  {
    hide SpellItems, SpellFields, PiecesText;
    if s.Word? { assert s.value == Bool(true) || s.value == Bool(false) || s.value == Null; }
  }

  lemma StartAt(text: string, p: nat, before: string, s: string)
    requires At(text, p, before) && Blanks(before) && At(text, p + |before|, s)
    requires s != [] && !IsSpace(s[0]) && s[0] !in {']', '}'}
    ensures SkipSpace(text, p) == p + |before| && Expect(text, p, ']') == None && Expect(text, p, '}') == None
  {
    hide At, Blanks;
    FirstChar(text, p + |before|, s);
    AtSingle(text, p + |before|, s[0]);
    SkipOver(text, p, before, s[0]);
  }

  // ----- Reading a spelling --------------------------------------------------------------

  lemma ProperParts(s: Spelled)
    requires Proper(s)
    ensures s.Listed? ==> Blanks(s.inside) && forall i :: 0 <= i < |s.items| ==> ProperItem(s.items[i])
    ensures s.Keyed? ==> Blanks(s.inside) && forall i :: 0 <= i < |s.fields| ==> ProperField(s.fields[i])
  {
  }

  /** A value between blanks, in front of what ends it: it is read, and the reader comes to its end. */
  lemma ItemParses(text: string, p: nat, item: Item, c: char)
    requires ProperItem(item) && At(text, p, ItemText(item)) && At(text, p + |ItemText(item)|, [c]) && c in {',', ']', '}'}
    ensures ParseValue(text, p) == Done(Meant(item.value), p + |item.before| + |Spell(item.value)|)
    ensures SkipSpace(text, p) == p + |item.before| && Expect(text, p, ']') == None && Expect(text, p, '}') == None
    ensures var q := p + |item.before| + |Spell(item.value)|;
            forall e :: Expect(text, q, e) == if e == c then Some(p + |ItemText(item)| + 1) else None
    decreases item, 1
  {
    hide At, Blanks, Spell, Proper, Meant, ParseValue, SkipSpace, Expect;
    var v := Spell(item.value);
    var q := p + |item.before| + |v|;
    AtConcat3(text, p, item.before, v, item.after);
    SpellStart(item.value);
    StartAt(text, p, item.before, v);
    EndsBefore(text, q, item.after, c);
    SpelledParses(text, p + |item.before|, item.value);
    FirstChar(text, p + |item.before|, v);
    ValueSkips(text, p);
    NoBlank(c);
    forall e ensures Expect(text, q, e) == if e == c then Some(q + |item.after| + 1) else None {
      ExpectOver(text, q, item.after, c, e);
    }
  }

  lemma NoBlank(c: char)
    ensures c in {',', ']', '}', ':'} ==> !IsSpace(c)
  {
  }

  lemma ItemsFirst(items: seq<Item>)
    requires items != []
    ensures |items| == 1 ==> SpellItems(items) == ItemText(items[0]) + ""
    ensures |items| > 1 ==> SpellItems(items) == ItemText(items[0]) + ("," + SpellItems(items[1..]))
    ensures ItemsMeant(items) == [Meant(items[0].value)] + ItemsMeant(items[1..])
  {
    hide ItemText, Meant;
  }

  lemma Regroup(a: string, b: string, c: string)
    ensures a + ("," + b) + c == a + "," + (b + c) && a + "" + c == a + c
  {
  }

  lemma ItemsShape(items: seq<Item>)
    requires items != []
    ensures |items| == 1 ==> SpellItems(items) + "]" == ItemText(items[0]) + "]"
    ensures |items| > 1 ==> SpellItems(items) + "]" == ItemText(items[0]) + "," + (SpellItems(items[1..]) + "]")
    ensures ItemsMeant(items) == [Meant(items[0].value)] + ItemsMeant(items[1..])
  {
    hide ItemText, Meant, SpellItems, ItemsMeant;
    ItemsFirst(items);
    Regroup(ItemText(items[0]), SpellItems(items[1..]), "]");
  }

  /** The loop over spelled elements collects exactly what they mean. */
  lemma {:induction false} ItemsParse(text: string, p: nat, items: seq<Item>, read: seq<Json>)
    requires items != [] && (forall i :: 0 <= i < |items| ==> ProperItem(items[i])) && At(text, p, SpellItems(items) + "]")
    ensures ParseElements(text, p, read) == Done(Array(read + ItemsMeant(items)), p + |SpellItems(items)| + 1)
    ensures Expect(text, p, ']') == None
    decreases items, 0
  {
    hide At, ItemText, SpellItems, ItemsMeant, ParseValue, Expect, ProperItem, Meant;
    var item, rest := items[0], items[1..];
    ItemsShape(items);
    if |items| == 1 {
      AtConcat(text, p, ItemText(item), "]");
      ItemParses(text, p, item, ']');
      assert ItemsMeant(rest) == [] by { NothingMeant(); }
      assert read + [Meant(item.value)] == read + ItemsMeant(items);
    } else {
      AtConcat3(text, p, ItemText(item), ",", SpellItems(rest) + "]");
      ItemParses(text, p, item, ',');
      AtBound(text, p, SpellItems(items) + "]");
      ItemsParse(text, p + |ItemText(item)| + 1, rest, read + [Meant(item.value)]);
      assert read + [Meant(item.value)] + ItemsMeant(rest) == read + ItemsMeant(items);
    }
  }

  lemma NothingMeant()
    ensures ItemsMeant([]) == [] && FieldsMeant([]) == []
  {
  }

  /** Where the value of a field ends. */
  function ValueEnd(field: Pair): nat
  {
    |field.before| + |QuotedText(field.key)| + |field.between| + 1 + |field.item.before| + |Spell(field.item.value)|
  }

  /** One spelled member is read. */
  lemma FieldParses(text: string, p: nat, field: Pair, c: char)
    requires ProperField(field) && At(text, p, FieldText(field)) && At(text, p + |FieldText(field)|, [c]) && c in {',', '}'}
    ensures var q := p + ValueEnd(field);
            ParseMember(text, p) == Done(Member(Said(field.key), Meant(field.item.value)), q) &&
            forall e :: Expect(text, q, e) == if e == c then Some(p + |FieldText(field)| + 1) else None
    ensures SkipSpace(text, p) == p + |field.before| && Expect(text, p, '}') == None
    decreases field, 2
  {
    hide At, Blanks, QuotedText, ProperPieces, ParseValue, SkipSpace, Expect, ItemText, ProperItem, Meant, Said;
    var k := QuotedText(field.key);
    var afterKey := p + |field.before| + |k|;
    AtConcat3(text, p, field.before + k + field.between, ":", ItemText(field.item));
    AtConcat3(text, p, field.before, k, field.between);
    QuotedParses(text, p + |field.before|, field.key);
    QuotedStart(field.key);
    StartAt(text, p, field.before, k);
    SkipTwice(text, p);
    NoBlank(':');
    ExpectOver(text, afterKey, field.between, ':', ':');
    ItemParses(text, afterKey + |field.between| + 1, field.item, c);
    ItemLength(field.item);
  }

  lemma ItemLength(item: Item)
    ensures |ItemText(item)| == |item.before| + |Spell(item.value)| + |item.after|
  {
  }

  lemma QuotedStart(pieces: seq<Piece>)
    ensures QuotedText(pieces) != [] && QuotedText(pieces)[0] == '"' && !IsSpace('"')
  {
  }

  lemma FieldsFirst(fields: seq<Pair>)
    requires fields != []
    ensures |fields| == 1 ==> SpellFields(fields) == FieldText(fields[0]) + ""
    ensures |fields| > 1 ==> SpellFields(fields) == FieldText(fields[0]) + ("," + SpellFields(fields[1..]))
  {
    hide FieldText;
  }

  lemma FieldsShape(fields: seq<Pair>)
    requires fields != []
    ensures |fields| == 1 ==> SpellFields(fields) + "}" == FieldText(fields[0]) + "}"
    ensures |fields| > 1 ==> SpellFields(fields) + "}" == FieldText(fields[0]) + "," + (SpellFields(fields[1..]) + "}")
  {
    hide FieldText, SpellFields;
    FieldsFirst(fields);
    Regroup(FieldText(fields[0]), SpellFields(fields[1..]), "}");
  }

  lemma MeantFirst(fields: seq<Pair>)
    requires fields != []
    ensures FieldsMeant(fields) == [Member(Said(fields[0].key), Meant(fields[0].item.value))] + FieldsMeant(fields[1..])
  {
    hide Meant, Said;
  }

  lemma {:induction false} FieldsParse(text: string, p: nat, fields: seq<Pair>, read: seq<Member>)
    requires fields != [] && (forall i :: 0 <= i < |fields| ==> ProperField(fields[i])) && At(text, p, SpellFields(fields) + "}")
    ensures ParseMembers(text, p, read) == Done(Object(read + FieldsMeant(fields)), p + |SpellFields(fields)| + 1)
    ensures Expect(text, p, '}') == None
    decreases fields, 0
  {
    hide At, FieldText, SpellFields, FieldsMeant, ParseMember, Expect, ProperField, Meant, Said;
    var field, rest := fields[0], fields[1..];
    var m := Member(Said(field.key), Meant(field.item.value));
    FieldsShape(fields);
    MeantFirst(fields);
    AtBound(text, p, SpellFields(fields) + "}");
    if |fields| == 1 {
      AtConcat(text, p, FieldText(field), "}");
      FieldParses(text, p, field, '}');
      assert FieldsMeant(rest) == [] by { NothingMeant(); }
      assert read + [m] == read + FieldsMeant(fields);
    } else {
      AtConcat3(text, p, FieldText(field), ",", SpellFields(rest) + "}");
      FieldParses(text, p, field, ',');
      FieldsParse(text, p + |FieldText(field)| + 1, rest, read + [m]);
      assert read + [m] + FieldsMeant(rest) == read + FieldsMeant(fields);
    }
  }

  /** A spelling is read as what it means, wherever it stands. */
  lemma {:induction false} SpelledParses(text: string, p: nat, s: Spelled)
    requires Proper(s) && At(text, p, Spell(s)) && Ends(text, p + |Spell(s)|)
    ensures ParseValue(text, p) == Done(Meant(s), p + |Spell(s)|)
    decreases s, 3
  {
    match s
    case Word(value) => WordParses(text, p, value);
    case Numeral(scalar) => NumeralParses(text, p, scalar);
    case Chars(pieces) => QuotedValue(text, p, pieces);
    case Listed(_, _) => ListedParses(text, p, s);
    case Keyed(_, _) => KeyedParses(text, p, s);
  }

  lemma ListedParses(text: string, p: nat, s: Spelled)
    requires s.Listed? && Proper(s) && At(text, p, Spell(s))
    ensures ParseValue(text, p) == Done(Meant(s), p + |Spell(s)|)
    decreases s, 2
  {
    hide At, SpellItems, Expect, ParseElements, SkipSpace, Proper, Blanks, ProperItem, ItemsMeant, ParseObject, ParseString, NumberEnd;
    var items := s.items;
    ProperParts(s);
    FirstChar(text, p, Spell(s));
    SkipNone(text, p);
    NoBlank(']');
    AtBound(text, p, Spell(s));
    if items == [] {
      AtConcat3(text, p, "[", s.inside, "]");
      ExpectOver(text, p + 1, s.inside, ']', ']');
      NothingMeant();
    } else {
      assert Spell(s) == "[" + (SpellItems(items) + "]");
      AtConcat(text, p, "[", SpellItems(items) + "]");
      ItemsParse(text, p + 1, items, []);
      LoopsSkip(text, p + 1, [], []);
      assert [] + ItemsMeant(items) == ItemsMeant(items);
    }
  }

  lemma KeyedParses(text: string, p: nat, s: Spelled)
    requires s.Keyed? && Proper(s) && At(text, p, Spell(s))
    ensures ParseValue(text, p) == Done(Meant(s), p + |Spell(s)|)
    decreases s, 2
  {
    hide At, SpellFields, Expect, ParseMembers, SkipSpace, Proper, Blanks, ProperField, FieldsMeant, ParseArray, ParseString, NumberEnd;
    var fields := s.fields;
    ProperParts(s);
    FirstChar(text, p, Spell(s));
    SkipNone(text, p);
    NoBlank('}');
    AtBound(text, p, Spell(s));
    if fields == [] {
      AtConcat3(text, p, "{", s.inside, "}");
      ExpectOver(text, p + 1, s.inside, '}', '}');
      NothingMeant();
    } else {
      assert Spell(s) == "{" + (SpellFields(fields) + "}");
      AtConcat(text, p, "{", SpellFields(fields) + "}");
      FieldsParse(text, p + 1, fields, []);
      LoopsSkip(text, p + 1, [], []);
      assert [] + FieldsMeant(fields) == FieldsMeant(fields);
    }
  }

  // ----- Every text that is read is a spelling -------------------------------------------

  lemma SkippedBlanks(text: string, p: nat)
    requires p <= |text|
    ensures Blanks(text[p..SkipSpace(text, p)])
  {
    hide Blanks;
    SkipSpaceBlank(text, p);
    BlanksAreBlank(text[p..SkipSpace(text, p)]);
  }

  /** A character that was expected and found, behind blanks. */
  lemma Expected(text: string, p: nat, c: char) returns (blank: string)
    requires p <= |text| && Expect(text, p, c).Some?
    ensures Blanks(blank) && text[p..Expect(text, p, c).value] == blank + [c]
  {
    hide Blanks;
    SkippedBlanks(text, p);
    blank := text[p..SkipSpace(text, p)];
  }

  /** Two neighbouring slices. */
  lemma Slices(text: string, i: nat, j: nat, k: nat)
    requires i <= j <= k <= |text|
    ensures text[i..k] == text[i..j] + text[j..k]
  {
  }

  lemma {:induction false} PiecesFound(text: string, i: nat, out: string) returns (pieces: seq<Piece>)
    requires i <= |text| && ReadString(text, i, out, JsonUnescape).Some?
    ensures var (r, e) := ReadString(text, i, out, JsonUnescape).value;
            ProperPieces(pieces) && r == out + Said(pieces) && text[i..e] == PiecesText(pieces) + "\""
    decreases |text| - i
  {
    hide PieceText, PieceSaid, JsonUnescape, ProperPieces, PiecesText;
    var e := ReadString(text, i, out, JsonUnescape).value.1;
    if text[i] == '"' {
      pieces := [];
      NoPieces();
      assert out + Said([]) == out;
    } else {
      var first := PieceFound(text, i, out);
      var next, j := out + [PieceSaid(first)], i + |PieceText(first)|;
      var rest := PiecesFound(text, j, next);
      pieces := [first] + rest;
      MorePieces(first, rest);
      assert next + Said(rest) == out + Said(pieces);
      Slices(text, i, j, e);
    }
  }

  lemma NoPieces()
    ensures ProperPieces([]) && PiecesText([]) == ""
  {
  }

  lemma MorePieces(first: Piece, rest: seq<Piece>)
    requires ProperPieces([first]) && ProperPieces(rest)
    ensures ProperPieces([first] + rest) && PiecesText([first] + rest) == PieceText(first) + PiecesText(rest)
    ensures forall t :: PieceText(first) + (PiecesText(rest) + t) == PiecesText([first] + rest) + t
    ensures Said([first] + rest) == [PieceSaid(first)] + Said(rest)
  {
    hide PieceText, PieceSaid;
    var all := [first] + rest;
    assert all[1..] == rest && [first][0] == first;
    forall t ensures PieceText(first) + (PiecesText(rest) + t) == PiecesText(all) + t {
      assert PieceText(first) + (PiecesText(rest) + t) == PieceText(first) + PiecesText(rest) + t;
    }
  }

  lemma PieceFound(text: string, i: nat, out: string) returns (first: Piece)
    requires i < |text| && text[i] != '"' && ReadString(text, i, out, JsonUnescape).Some?
    ensures ProperPieces([first]) && 0 < |PieceText(first)| <= |text| - i && text[i..i + |PieceText(first)|] == PieceText(first)
    ensures ReadString(text, i, out, JsonUnescape) ==
            ReadString(text, i + |PieceText(first)|, out + [PieceSaid(first)], JsonUnescape)
  {
    first := if text[i] == '\\' then Escape(text[i + 1]) else Plain(text[i]);
    assert [first][0] == first;
  }

  lemma QuotedFound(text: string, p: nat) returns (before: string, pieces: seq<Piece>)
    requires p <= |text| && ParseString(text, p).Done?
    ensures var r := ParseString(text, p);
            Blanks(before) && ProperPieces(pieces) && r.value == Said(pieces) && text[p..r.pos] == before + QuotedText(pieces)
  {
    hide Blanks, ProperPieces, PiecesText, ReadString, JsonUnescape;
    var q, e := SkipSpace(text, p), ParseString(text, p).pos;
    SkippedBlanks(text, p);
    before := text[p..q];
    pieces := PiecesFound(text, q + 1, []);
    assert [] + Said(pieces) == Said(pieces);
    Slices(text, p, q, e);
    assert text[q..e] == "\"" + text[q + 1..e];
    assert "\"" + (PiecesText(pieces) + "\"") == QuotedText(pieces);
  }

  lemma {:induction false} NumberEndChars(text: string, i: nat)
    requires i <= |text|
    ensures forall k :: i <= k < NumberEnd(text, i) ==> NumberChar(text[k])
    decreases |text| - i
  {
    if i < |text| && NumberChar(text[i]) { NumberEndChars(text, i + 1); }
  }

  /** A value that starts at `p` and is no string and no container. */
  lemma ScalarFound(text: string, p: nat) returns (s: Spelled)
    requires p < |text| && SkipSpace(text, p) == p && text[p] !in {'{', '[', '"'} && ParseValue(text, p).Done?
    ensures var r := ParseValue(text, p); Proper(s) && Meant(s) == r.value && text[p..r.pos] == Spell(s)
  {
    hide ParseObject, ParseArray, ParseString;
    AtSlice(text, p, "true");
    AtSlice(text, p, "false");
    AtSlice(text, p, "null");
    var v := ParseValue(text, p).value;
    if v.Number? {
      NumberEndChars(text, p);
      NumberChars(v.scalar);
      s := Numeral(v.scalar);
    } else {
      s := Word(v);
    }
  }

  /** A value that is read, with the blanks in front of it. */
  lemma {:induction false} ValueFound(text: string, p: nat) returns (before: string, s: Spelled)
    requires p <= |text| && ParseValue(text, p).Done?
    ensures var r := ParseValue(text, p);
            Blanks(before) && Proper(s) && Meant(s) == r.value && text[p..r.pos] == before + Spell(s)
    decreases |text| - p, 1
  {
    hide ParseObject, ParseArray, ParseString, ParseValue, Blanks, Proper, Meant, Spell, SkipSpace;
    var q := SkipSpace(text, p);
    SkippedBlanks(text, p);
    ValueSkips(text, p);
    SkipTwice(text, p);
    before := text[p..q];
    ValueThere(text, p);
    if text[q] == '{' {
      s := KeyedFound(text, q);
    } else if text[q] == '[' {
      s := ListedFound(text, q);
    } else if text[q] == '"' {
      s := StringFound(text, q);
    } else {
      s := ScalarFound(text, q);
    }
    Slices(text, p, q, ParseValue(text, p).pos);
  }

  lemma ValueThere(text: string, p: nat)
    requires p <= |text| && ParseValue(text, p).Done?
    ensures SkipSpace(text, p) < ParseValue(text, p).pos <= |text|
  {
    hide ParseObject, ParseArray, ParseString, At;
  }

  lemma StringFound(text: string, p: nat) returns (s: Spelled)
    requires p < |text| && SkipSpace(text, p) == p && text[p] == '"' && ParseValue(text, p).Done?
    ensures var r := ParseValue(text, p); Proper(s) && Meant(s) == r.value && text[p..r.pos] == Spell(s)
  {
    hide ParseObject, ParseArray, ParseString, Blanks, ProperPieces, QuotedText, Said;
    var before, pieces := QuotedFound(text, p);
    BlankStart(before, text, p, ParseString(text, p).pos, QuotedText(pieces));
    s := Chars(pieces);
  }

  lemma BlankStart(before: string, text: string, p: nat, e: nat, rest: string)
    requires Blanks(before) && p < e <= |text| && !IsSpace(text[p]) && text[p..e] == before + rest
    ensures before == "" && text[p..e] == rest
  {
    BlankFirst(before, rest);
  }

  lemma BlankFirst(before: string, rest: string)
    requires Blanks(before)
    ensures if before == [] then before + rest == rest else IsSpace((before + rest)[0])
  {
    BlanksAreBlank(before);
  }

  lemma ListedFound(text: string, p: nat) returns (s: Spelled)
    requires p < |text| && SkipSpace(text, p) == p && text[p] == '[' && ParseValue(text, p).Done?
    ensures var r := ParseValue(text, p); Proper(s) && Meant(s) == r.value && text[p..r.pos] == Spell(s)
    decreases |text| - p, 0
  {
    hide ParseObject, ParseElements, ParseString, Blanks, ProperItem, SpellItems, Expect, ItemsMeant;
    var e := ParseValue(text, p).pos;
    Slices(text, p, p + 1, e);
    if Expect(text, p + 1, ']').Some? {
      var inside := Expected(text, p + 1, ']');
      s := Listed(inside, []);
      NothingMeant();
      assert "[" + (inside + "]") == "[" + inside + "]";
    } else {
      LoopsSkip(text, p + 1, [], []);
      var items := ItemsFound(text, p + 1, []);
      s := Listed("", items);
      NoBlanks();
      assert [] + ItemsMeant(items) == ItemsMeant(items);
      assert "[" + (SpellItems(items) + "]") == "[" + SpellItems(items) + "]";
    }
  }

  lemma NoBlanks()
    ensures Blanks("")
  {
  }

  lemma OneItem(item: Item)
    ensures SpellItems([item]) == ItemText(item) && ItemsMeant([item]) == [Meant(item.value)]
  {
    ItemsFirst([item]);
    NothingMeant();
    assert ItemText(item) + "" == ItemText(item);
  }

  lemma MoreItems(item: Item, rest: seq<Item>)
    requires rest != []
    ensures SpellItems([item] + rest) + "]" == ItemText(item) + "," + (SpellItems(rest) + "]")
    ensures ItemsMeant([item] + rest) == [Meant(item.value)] + ItemsMeant(rest)
  {
    ItemsShape([item] + rest);
    assert ([item] + rest)[1..] == rest;
  }

  /** An element that is read, with the blanks around it, in front of a comma or the closing bracket. */
  lemma ItemFound(text: string, p: nat, c: char) returns (item: Item)
    requires p <= |text| && ParseValue(text, p).Done? && Expect(text, ParseValue(text, p).pos, c).Some?
    ensures var e := Expect(text, ParseValue(text, p).pos, c).value;
            ProperItem(item) && Meant(item.value) == ParseValue(text, p).value && text[p..e] == ItemText(item) + [c]
    decreases |text| - p, 2
  {
    hide ParseValue, Expect, Blanks, Proper, Meant, Spell;
    var q := ParseValue(text, p).pos;
    var before, value := ValueFound(text, p);
    var after := Expected(text, q, c);
    item := Item(before, value, after);
    Slices(text, p, q, Expect(text, q, c).value);
    assert before + Spell(value) + (after + [c]) == before + Spell(value) + after + [c];
  }

  lemma {:induction false} ItemsFound(text: string, p: nat, read: seq<Json>) returns (items: seq<Item>)
    requires p <= |text| && ParseElements(text, p, read).Done?
    ensures var r := ParseElements(text, p, read);
            items != [] && (forall i :: 0 <= i < |items| ==> ProperItem(items[i])) &&
            r.value == Array(read + ItemsMeant(items)) && text[p..r.pos] == SpellItems(items) + "]"
    decreases |text| - p, 3
  {
    hide ParseValue, Expect, ProperItem, ItemText, SpellItems, ItemsMeant, Meant;
    var q, e := ParseValue(text, p).pos, ParseElements(text, p, read).pos;
    if Expect(text, q, ']').Some? {
      var item := ItemFound(text, p, ']');
      items := [item];
      OneItem(item);
    } else {
      var item := ItemFound(text, p, ',');
      var j := Expect(text, q, ',').value;
      var rest := ItemsFound(text, j, read + [ParseValue(text, p).value]);
      items := [item] + rest;
      MoreItems(item, rest);
      Slices(text, p, j, e);
      assert read + [Meant(item.value)] + ItemsMeant(rest) == read + ItemsMeant(items);
    }
  }

  lemma KeyedFound(text: string, p: nat) returns (s: Spelled)
    requires p < |text| && SkipSpace(text, p) == p && text[p] == '{' && ParseValue(text, p).Done?
    ensures var r := ParseValue(text, p); Proper(s) && Meant(s) == r.value && text[p..r.pos] == Spell(s)
    decreases |text| - p, 0
  {
    hide ParseArray, ParseMembers, ParseString, Blanks, ProperField, SpellFields, Expect, FieldsMeant;
    var e := ParseValue(text, p).pos;
    Slices(text, p, p + 1, e);
    if Expect(text, p + 1, '}').Some? {
      var inside := Expected(text, p + 1, '}');
      s := Keyed(inside, []);
      NothingMeant();
      assert "{" + (inside + "}") == "{" + inside + "}";
    } else {
      LoopsSkip(text, p + 1, [], []);
      var fields := FieldsFound(text, p + 1, []);
      s := Keyed("", fields);
      NoBlanks();
      assert [] + FieldsMeant(fields) == FieldsMeant(fields);
      assert "{" + (SpellFields(fields) + "}") == "{" + SpellFields(fields) + "}";
    }
  }

  lemma OneField(field: Pair)
    ensures SpellFields([field]) == FieldText(field) && FieldsMeant([field]) == [Member(Said(field.key), Meant(field.item.value))]
  {
    FieldsFirst([field]);
    MeantFirst([field]);
    NothingMeant();
    assert FieldText(field) + "" == FieldText(field);
  }

  lemma MoreFields(field: Pair, rest: seq<Pair>)
    requires rest != []
    ensures SpellFields([field] + rest) + "}" == FieldText(field) + "," + (SpellFields(rest) + "}")
    ensures FieldsMeant([field] + rest) == [Member(Said(field.key), Meant(field.item.value))] + FieldsMeant(rest)
  {
    FieldsShape([field] + rest);
    MeantFirst([field] + rest);
    assert ([field] + rest)[1..] == rest;
  }

  lemma FieldFound(text: string, p: nat, c: char) returns (field: Pair)
    requires p <= |text| && ParseMember(text, p).Done? && Expect(text, ParseMember(text, p).pos, c).Some?
    ensures var r := ParseMember(text, p);
            ProperField(field) && Member(Said(field.key), Meant(field.item.value)) == r.value &&
            text[p..Expect(text, r.pos, c).value] == FieldText(field) + [c]
    decreases |text| - p, 4
  {
    hide ParseValue, ParseString, Expect, Blanks, ProperPieces, ProperItem, QuotedText, ItemText, Meant, Said;
    var afterKey := ParseString(text, p).pos;
    var colon := Expect(text, afterKey, ':').value;
    var e := Expect(text, ParseMember(text, p).pos, c).value;
    var before, key := QuotedFound(text, p);
    var between := Expected(text, afterKey, ':');
    var item := ItemFound(text, colon, c);
    field := Pair(before, key, between, item);
    Slices(text, p, afterKey, e);
    Slices(text, afterKey, colon, e);
    FieldJoins(before + QuotedText(key), between, ItemText(item), [c]);
  }

  lemma FieldJoins(a: string, between: string, item: string, c: string)
    ensures a + (between + ":" + (item + c)) == a + between + ":" + item + c
  {
  }

  lemma {:induction false} FieldsFound(text: string, p: nat, read: seq<Member>) returns (fields: seq<Pair>)
    requires p <= |text| && ParseMembers(text, p, read).Done?
    ensures var r := ParseMembers(text, p, read);
            fields != [] && (forall i :: 0 <= i < |fields| ==> ProperField(fields[i])) &&
            r.value == Object(read + FieldsMeant(fields)) && text[p..r.pos] == SpellFields(fields) + "}"
    decreases |text| - p, 5
  {
    hide ParseMember, Expect, ProperField, FieldText, SpellFields, FieldsMeant, Meant, Said;
    var q, e := ParseMember(text, p).pos, ParseMembers(text, p, read).pos;
    if Expect(text, q, '}').Some? {
      var field := FieldFound(text, p, '}');
      fields := [field];
      OneField(field);
    } else {
      var field := FieldFound(text, p, ',');
      var j := Expect(text, q, ',').value;
      var rest := FieldsFound(text, j, read + [ParseMember(text, p).value]);
      fields := [field] + rest;
      MoreFields(field, rest);
      Slices(text, p, j, e);
      assert read + [ParseMember(text, p).value] + FieldsMeant(rest) == read + FieldsMeant(fields);
    }
  }

  // ----- Whole files ---------------------------------------------------------------------

  /** The text is a spelling of the value between blanks. */
  ghost predicate Spells(text: string, value: Json)
  {
    exists a, s, b :: SpelledAs(text, value, a, s, b)
  }

  ghost predicate SpelledAs(text: string, value: Json, a: string, s: Spelled, b: string)
  {
    Blanks(a) && Proper(s) && Blanks(b) && text == a + Spell(s) + b && Meant(s) == value
  }

  /** What the reader accepts, and as what: exactly the texts that spell a value, as that value. */
  lemma ReadsSpellings(text: string, value: Json)
    ensures ParseJson(text) == Some(value) <==> Spells(text, value)
  {
    hide ParseJson, SpelledAs;
    if ParseJson(text) == Some(value) { FileFound(text); }
    if Spells(text, value) {
      var a, s, b :| SpelledAs(text, value, a, s, b);
      FileRead(text, value, a, s, b);
    }
  }

  lemma FileFound(text: string)
    requires ParseJson(text).Some?
    ensures Spells(text, ParseJson(text).value)
  {
    hide ParseValue, Blanks, Proper, Meant, Spell;
    var e := ParseValue(text, 0).pos;
    var a, s := ValueFound(text, 0);
    SkippedBlanks(text, e);
    Slices(text, 0, e, |text|);
    assert text[0..|text|] == text;
    assert SpelledAs(text, ParseJson(text).value, a, s, text[e..|text|]);
  }

  lemma FileRead(text: string, value: Json, a: string, s: Spelled, b: string)
    requires SpelledAs(text, value, a, s, b)
    ensures ParseJson(text) == Some(value)
  {
    hide At, ParseValue, Proper, Meant, Spell, Blanks;
    AtSelf(text);
    AtConcat3(text, 0, a, Spell(s), b);
    var q := |a| + |Spell(s)|;
    SpellStart(s);
    StartAt(text, 0, a, Spell(s));
    BlankEnds(text, q, b);
    SpelledParses(text, |a|, s);
    ValueSkips(text, 0);
  }

  lemma BlankEnds(text: string, q: nat, b: string)
    requires At(text, q, b) && q + |b| == |text| && Blanks(b)
    ensures Ends(text, q) && SkipSpace(text, q) == |text|
  {
    BlanksAreBlank(b);
    forall k | q <= k < |text| ensures IsSpace(text[k]) {
      assert text[k] == b[k - q];
    }
    SkipSpaceUnique(text, q, |text|);
  }
}

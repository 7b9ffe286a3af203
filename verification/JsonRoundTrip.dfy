/** Parsing what the JSON printer writes gives the tree back. */
module JsonRoundTrip {
  import opened Text
  import opened FlatRecord
  import opened JsonText
  import opened JsonLayouts

  /** A number keeps its text, so it must be text the reader takes for a number. */
  ghost predicate WellFormed(node: Json)
  {
    match node
    case Number(scalar) => NumberText(scalar)
    case Array(items) => forall i :: 0 <= i < |items| ==> WellFormed(items[i])
    case Object(members) => forall i :: 0 <= i < |members| ==> WellFormed(members[i].value)
    case _ => true
  }

  predicate OpensValue(c: char)
  {
    c == 'n' || c == 't' || c == 'f' || c == '"' || c == '[' || c == '{' || NumberChar(c)
  }

  lemma PrintedStart(node: Json, depth: nat, nl: string)
    requires WellFormed(node)
    ensures PrintedWith(node, depth, nl) != [] && OpensValue(PrintedWith(node, depth, nl)[0])
  {
    hide PrintedItems, PrintedMembers, Indent, Escaped;
    if node.Number? { NumberChars(node.scalar); }
  }

  /** What a file may be laid out with between lines. */
  predicate Newline(nl: string) { nl != [] && Blank(nl) }

  lemma WellFormedParts(node: Json)
    requires WellFormed(node)
    ensures node.Array? ==> forall i :: 0 <= i < |node.items| ==> WellFormed(node.items[i])
    ensures node.Object? ==> forall i :: 0 <= i < |node.members| ==> WellFormed(node.members[i].value)
  {
  }

  // ----- How the printer spells a tree ---------------------------------------------------

  function PieceOf(c: char): Piece
  {
    if |EscapeChar(c)| == 2 then Escape(EscapeChar(c)[1]) else Plain(c)
  }

  function PiecesOf(s: string): (pieces: seq<Piece>)
    ensures |pieces| == |s| && forall i :: 0 <= i < |s| ==> pieces[i] == PieceOf(s[i])
  {
    seq(|s|, i requires 0 <= i < |s| => PieceOf(s[i]))
  }

  /** The spelling the printer chooses: every element on a line of its own. */
  function LayoutOf(node: Json, depth: nat, nl: string): Spelled
    decreases node, 1
  {
    match node
    case Null => Word(node)
    case Bool(_) => Word(node)
    case Number(scalar) => Numeral(scalar)
    case Str(s) => Chars(PiecesOf(s))
    case Array(items) => Listed("", LayoutItems(items, depth + 1, nl, nl + Indent(depth)))
    case Object(members) => Keyed("", LayoutFields(members, depth + 1, nl, nl + Indent(depth)))
  }

  function LayoutItems(items: seq<Json>, depth: nat, nl: string, close: string): (out: seq<Item>)
    ensures |out| == |items|
    decreases items, 0
  {
    if items == [] then []
    else [Item(nl + Indent(depth), LayoutOf(items[0], depth, nl), if |items| == 1 then close else "")] +
         LayoutItems(items[1..], depth, nl, close)
  }

  function LayoutFields(members: seq<Member>, depth: nat, nl: string, close: string): (out: seq<Pair>)
    ensures |out| == |members|
    decreases members, 0
  {
    if members == [] then []
    else [Pair(nl + Indent(depth), PiecesOf(members[0].key), "",
               Item(" ", LayoutOf(members[0].value, depth, nl), if |members| == 1 then close else ""))] +
         LayoutFields(members[1..], depth, nl, close)
  }

  lemma PieceOfChar(c: char)
    ensures PieceText(PieceOf(c)) == EscapeChar(c) && PieceSaid(PieceOf(c)) == c && ProperPieces([PieceOf(c)])
  {
  }

  lemma {:induction false} PiecesOfString(s: string)
    ensures PiecesText(PiecesOf(s)) == Escaped(s) && Said(PiecesOf(s)) == s && ProperPieces(PiecesOf(s))
    ensures QuotedText(PiecesOf(s)) == StringValue(s)
  {
    hide EscapeChar, PieceText, PieceSaid, PieceOf;
    forall i | 0 <= i < |s|
      ensures PieceSaid(PieceOf(s[i])) == s[i] && (PieceOf(s[i]).Plain? ==> PieceOf(s[i]).c != '"' && PieceOf(s[i]).c != '\\')
    {
      PieceOfChar(s[i]);
      assert [PieceOf(s[i])][0] == PieceOf(s[i]);
    }
    assert Said(PiecesOf(s)) == s;
    if s != [] {
      PiecesOfString(s[1..]);
      assert PiecesOf(s)[1..] == PiecesOf(s[1..]);
      PieceOfChar(s[0]);
      EscapedFirst(s);
    }
  }

  lemma IndentBlanks(depth: nat, nl: string)
    requires Newline(nl)
    ensures Blanks(nl + Indent(depth)) && Blanks("") && Blanks(" ")
  {
    BlanksAreBlank(nl + Indent(depth));
    BlanksAreBlank(" ");
  }

  /** The printed text of a tree is a spelling of it. */
  lemma {:induction false} PrintedIsSpelled(node: Json, depth: nat, nl: string)
    requires WellFormed(node) && Newline(nl)
    ensures var s := LayoutOf(node, depth, nl);
            Spell(s) == PrintedWith(node, depth, nl) && Proper(s) && Meant(s) == node
    decreases node, 1
  {
    hide PiecesOf, PrintedItems, PrintedMembers, Newline, Blanks, Indent, ProperItem, ProperField, ProperPieces, SpellItems,
      SpellFields, LayoutItems, LayoutFields, WellFormed;
    IndentBlanks(depth, nl);
    WellFormedParts(node);
    NothingMeant();
    match node
    case Str(s) => PiecesOfString(s);
    case Array(items) =>
      if items != [] {
        ItemsSpelled(items, depth + 1, nl, nl + Indent(depth));
        Bracketed("[", nl, PrintedItems(items, depth + 1, nl), nl + Indent(depth), "]");
      }
    case Object(members) =>
      if members != [] {
        FieldsSpelled(members, depth + 1, nl, nl + Indent(depth));
        Bracketed("{", nl, PrintedMembers(members, depth + 1, nl), nl + Indent(depth), "}");
      }
    case Number(_) => NumberWellFormed(node);
    case _ =>
  }

  lemma NumberWellFormed(node: Json)
    requires node.Number? && WellFormed(node)
    ensures NumberText(node.scalar)
  {
  }

  lemma Bracketed(open: string, nl: string, body: string, close: string, end: string)
    ensures open + (nl + body + close) + end == open + nl + body + close + end
  {
  }

  lemma ItemJoins(nl: string, indent: string, first: string, rest: string, close: string)
    ensures nl + indent + first + close == nl + (indent + first + "") + close
    ensures nl + indent + first + "" + ("," + (nl + rest + close)) == nl + (indent + first + ("," + nl + rest)) + close
  {
  }

  lemma {:induction false} ItemsSpelled(items: seq<Json>, depth: nat, nl: string, close: string)
    requires items != [] && (forall i :: 0 <= i < |items| ==> WellFormed(items[i])) && Newline(nl) && Blanks(close)
    ensures var out := LayoutItems(items, depth, nl, close);
            SpellItems(out) == nl + PrintedItems(items, depth, nl) + close && ItemsMeant(out) == items &&
            forall i :: 0 <= i < |out| ==> ProperItem(out[i])
    decreases items, 0
  {
    hide PrintedWith, LayoutOf, Newline, Blanks, Indent, Spell, SpellItems, Proper, Meant, WellFormed, ItemsMeant;
    var out, rest := LayoutItems(items, depth, nl, close), items[1..];
    IndentBlanks(depth, nl);
    PrintedIsSpelled(items[0], depth, nl);
    ItemJoins(nl, Indent(depth), PrintedWith(items[0], depth, nl), PrintedItems(rest, depth, nl), close);
    ItemsFirst(out);
    assert out[1..] == LayoutItems(rest, depth, nl, close);
    if rest == [] {
      NothingMeant();
      assert items == [items[0]];
    } else {
      ItemsSpelled(rest, depth, nl, close);
      assert items == [items[0]] + rest;
    }
  }

  lemma FieldJoins(front: string, key: string, value: string, rest: string, close: string, nl: string)
    ensures nl + front + key + "" + ":" + (" " + value + close) == nl + (front + key + ": " + value + "") + close
    ensures nl + front + key + "" + ":" + (" " + value + "") + ("," + (nl + rest + close)) ==
            nl + (front + key + ": " + value + ("," + nl + rest)) + close
  {
    assert ": " == ":" + " ";
    assert nl + front + key + "" + ":" + (" " + value + close) == nl + front + key + ":" + " " + value + close;
    assert nl + front + key + "" + ":" + (" " + value + "") + ("," + (nl + rest + close)) ==
           nl + front + key + ":" + " " + value + "," + nl + rest + close;
  }

  lemma FieldSpelled(member: Member, depth: nat, nl: string, close: string)
    requires WellFormed(member.value) && Newline(nl) && Blanks(close)
    ensures var field := Pair(nl + Indent(depth), PiecesOf(member.key), "", Item(" ", LayoutOf(member.value, depth, nl), close));
            ProperField(field) && Member(Said(field.key), Meant(field.item.value)) == member &&
            FieldText(field) == nl + Indent(depth) + StringValue(member.key) + "" + ":" + (" " + PrintedWith(member.value, depth, nl) + close)
    decreases member, 2
  {
    hide PrintedWith, LayoutOf, Newline, Blanks, Indent, Spell, Proper, Meant, WellFormed, StringValue, QuotedText, ProperPieces, Said, PiecesOf;
    IndentBlanks(depth, nl);
    PrintedIsSpelled(member.value, depth, nl);
    PiecesOfString(member.key);
  }

  lemma {:induction false} FieldsSpelled(members: seq<Member>, depth: nat, nl: string, close: string)
    requires members != [] && (forall i :: 0 <= i < |members| ==> WellFormed(members[i].value)) && Newline(nl) && Blanks(close)
    ensures var out := LayoutFields(members, depth, nl, close);
            SpellFields(out) == nl + PrintedMembers(members, depth, nl) + close && FieldsMeant(out) == members &&
            forall i :: 0 <= i < |out| ==> ProperField(out[i])
    decreases members, 0
  {
    hide PrintedWith, LayoutOf, Newline, Blanks, Indent, FieldText, SpellFields, ProperField, Meant, WellFormed, FieldsMeant, StringValue,
      Said, PiecesOf;
    var out, rest, m := LayoutFields(members, depth, nl, close), members[1..], members[0];
    FieldSpelled(m, depth, nl, close);
    IndentBlanks(depth, nl);
    FieldSpelled(m, depth, nl, "");
    FieldJoins(Indent(depth), StringValue(m.key), PrintedWith(m.value, depth, nl), PrintedMembers(rest, depth, nl), close, nl);
    FieldsFirst(out);
    MeantFirst(out);
    assert out[1..] == LayoutFields(rest, depth, nl, close);
    if rest == [] {
      NothingMeant();
      assert members == [m];
    } else {
      FieldsSpelled(rest, depth, nl, close);
      assert members == [m] + rest;
    }
  }

  // ----- Whole trees ---------------------------------------------------------------------

  /** The file form: the printed tree and a newline. */
  function FileText(node: Json): string { Printed(node, 0) + "\n" }

  /** A printed tree, whatever its lines end in, parses as exactly the tree. */
  lemma PrintedWithParses(node: Json, nl: string)
    requires WellFormed(node) && Newline(nl)
    ensures ParseJson(PrintedWith(node, 0, nl) + nl) == Some(node)
  {
    hide PrintedWith, LayoutOf, ParseJson, WellFormed, Spell, Proper, Meant;
    var s := LayoutOf(node, 0, nl);
    PrintedIsSpelled(node, 0, nl);
    BlanksAreBlank(nl);
    assert PrintedWith(node, 0, nl) + nl == "" + Spell(s) + nl;
    assert SpelledAs(PrintedWith(node, 0, nl) + nl, node, "", s, nl);
    ReadsSpellings(PrintedWith(node, 0, nl) + nl, node);
  }

  /** Printing and parsing again gives back exactly the tree. */
  lemma PrintThenParse(node: Json)
    requires WellFormed(node)
    ensures ParseJson(FileText(node)) == Some(node)
  {
    hide PrintedWith, ParseJson, WellFormed;
    PrintedWithParses(node, "\n");
  }

  // ----- What the reader returns ---------------------------------------------------------

  lemma {:induction false} MeantWellFormed(s: Spelled)
    requires Proper(s)
    ensures WellFormed(Meant(s))
    decreases s, 1
  {
    hide Blanks, ProperPieces, Said, ItemsMeant, FieldsMeant;
    match s
    case Listed(_, items) => ItemsWellFormed(items);
    case Keyed(_, fields) => FieldsWellFormed(fields);
    case _ =>
  }

  lemma {:induction false} ItemsWellFormed(items: seq<Item>)
    requires forall i :: 0 <= i < |items| ==> ProperItem(items[i])
    ensures forall i :: 0 <= i < |ItemsMeant(items)| ==> WellFormed(ItemsMeant(items)[i])
    decreases items, 0
  {
    hide Blanks, Proper, WellFormed, Meant;
    if items != [] {
      assert ProperItem(items[0]);
      MeantWellFormed(items[0].value);
      ItemsWellFormed(items[1..]);
    }
  }

  lemma {:induction false} FieldsWellFormed(fields: seq<Pair>)
    requires forall i :: 0 <= i < |fields| ==> ProperField(fields[i])
    ensures forall i :: 0 <= i < |FieldsMeant(fields)| ==> WellFormed(FieldsMeant(fields)[i].value)
    decreases fields, 0
  {
    hide Blanks, Proper, WellFormed, Meant, Said, ProperPieces;
    if fields != [] {
      assert ProperField(fields[0]) && ProperItem(fields[0].item);
      MeantWellFormed(fields[0].item.value);
      FieldsWellFormed(fields[1..]);
    }
  }

  /** Every tree the reader returns can be printed and read again. */
  lemma ValueWellFormed(text: string, pos: nat)
    requires pos <= |text|
    ensures ParseValue(text, pos).Done? ==> WellFormed(ParseValue(text, pos).value)
  {
    hide ParseValue, WellFormed, Meant, Proper, Spell;
    if ParseValue(text, pos).Done? {
      var before, s := ValueFound(text, pos);
      MeantWellFormed(s);
    }
  }

  /** Rewriting a file through the reader and the printer changes its layout once and for all:
      the rewritten text stands for the same tree. */
  lemma ReprintKeepsTree(text: string)
    requires ParseJson(text).Some?
    ensures ParseJson(FileText(ParseJson(text).value)) == ParseJson(text)
  {
    hide ParseValue, WellFormed, Printed;
    ValueWellFormed(text, 0);
    PrintThenParse(ParseJson(text).value);
  }
}

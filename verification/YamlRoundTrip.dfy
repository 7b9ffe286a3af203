/** Exactly which trees the YAML printer and reader bring back. */
module YamlRoundTrip {
  import opened Text
  import opened TextLines
  import opened YamlText

  // ----- The trees -----------------------------------------------------------------------

  predicate CleanKey(key: string) { Trimmed(key) && OneLine(key) && ':' !in key }

  predicate CleanScalar(s: string) { s != [] && Trimmed(s) && OneLine(s) }

  /** Trees that survive: lists hold scalars only, and no text can be taken for something else. */
  ghost predicate Readable(node: Yaml)
  {
    match node
    case Scalar(s) => CleanScalar(s)
    case Map(entries) =>
      forall i :: 0 <= i < |entries| ==>
        CleanKey(entries[i].key) && !StartsWith(entries[i].key, "- ") && Readable(entries[i].value)
    case List(items) =>
      items != [] && forall i :: 0 <= i < |items| ==> ReadableItem(items[i])
  }

  predicate ReadableItem(item: Yaml)
  {
    item.Scalar? && CleanScalar(item.text) && item.text[|item.text| - 1] != ':'
  }

  /** What a block read from any text looks like. */
  ghost predicate FromReader(node: Yaml)
    decreases node, 0
  {
    match node
    case Scalar(s) => false
    case Map(entries) =>
      forall i :: 0 <= i < |entries| ==> CleanKey(entries[i].key) && FromEntry(entries[i].value)
    case List(items) =>
      items != [] && forall i :: 0 <= i < |items| ==> FromItem(items[i])
  }

  ghost predicate FromEntry(value: Yaml)
    decreases value, 1
  {
    if value.Scalar? then CleanScalar(value.text) else FromReader(value)
  }

  /** A list item may also be the one-entry map made from a line that ends in a colon. */
  ghost predicate FromItem(item: Yaml)
    decreases item, 2
  {
    FromEntry(item) ||
    (item.Map? && |item.entries| == 1 &&
     Trimmed(item.entries[0].key) && OneLine(item.entries[0].key) && FromReader(item.entries[0].value))
  }

  // ----- Lines of a printed tree ---------------------------------------------------------

  function EntryLines(e: Entry, indent: nat): seq<string>
    decreases e, 3
  {
    if e.value.Scalar? then [Spaces(indent) + e.key + ": " + e.value.text]
    else [Spaces(indent) + e.key + ":"] + NodeLines(e.value, indent + 2)
  }

  function EntriesLines(entries: seq<Entry>, indent: nat): seq<string>
    decreases entries, 1
  {
    if entries == [] then [] else EntryLines(entries[0], indent) + EntriesLines(entries[1..], indent)
  }

  function ItemLines(item: Yaml, indent: nat): seq<string>
    decreases item, 3
  {
    if item.Scalar? then [Spaces(indent) + "- " + item.text]
    else if InlineMap(item) then
      [Spaces(indent) + "- " + item.entries[0].key + ": " + item.entries[0].value.text]
    else [Spaces(indent) + "-"] + NodeLines(item, indent + 2)
  }

  function ItemsLines(items: seq<Yaml>, indent: nat): seq<string>
    decreases items, 1
  {
    if items == [] then [] else ItemLines(items[0], indent) + ItemsLines(items[1..], indent)
  }

  /** The lines of a printed tree; an empty container prints one empty line. */
  function NodeLines(node: Yaml, indent: nat): seq<string>
    decreases node, 2
  {
    match node
    case Scalar(text) => [text]
    case Map(entries) => if entries == [] then [""] else EntriesLines(entries, indent)
    case List(items) => if items == [] then [""] else ItemsLines(items, indent)
  }

  ghost predicate OneLiners(node: Yaml)
  {
    match node
    case Scalar(s) => OneLine(s)
    case Map(entries) => forall i :: 0 <= i < |entries| ==> OneLine(entries[i].key) && OneLiners(entries[i].value)
    case List(items) => forall i :: 0 <= i < |items| ==> OneLiners(items[i])
  }

  /** A text and a final newline are read as exactly the pieces of the text. */
  lemma FileLines(text: string)
    ensures GetLines(text + "\n") == Pieces(text)
  {
    assert (text + "\n")[..|text|] == text;
  }

  lemma SpacesOneLine(n: nat)
    ensures OneLine(Spaces(n))
  {
  }

  lemma {:induction false} NodePieces(node: Yaml, indent: nat)
    requires OneLiners(node)
    ensures Pieces(Printed(node, indent)) == NodeLines(node, indent)
    decreases node, 2
  {
    match node
    case Scalar(s) => OnePiece(s);
    case Map(entries) => if entries != [] { EntriesPieces(entries, indent); }
    case List(items) => if items != [] { ItemsPieces(items, indent); }
  }

  lemma EntryPieces(e: Entry, indent: nat)
    requires OneLine(e.key) && OneLiners(e.value)
    ensures Pieces(PrintedEntry(e, indent)) == EntryLines(e, indent)
    decreases e, 3
  {
    hide Pieces, Printed, NodeLines, OneLine;
    SpacesOneLine(indent);
    OneLineConcat(Spaces(indent), e.key);
    Colons();
    if e.value.Scalar? {
      OneLineConcat(Spaces(indent) + e.key, ": ");
      OneLineConcat(Spaces(indent) + e.key + ": ", e.value.text);
      OnePiece(PrintedEntry(e, indent));
    } else {
      OneLineConcat(Spaces(indent) + e.key, ":");
      OnePiece(Spaces(indent) + e.key + ":");
      PiecesConcat(Spaces(indent) + e.key + ":", Printed(e.value, indent + 2));
      NodePieces(e.value, indent + 2);
    }
  }

  lemma Colons()
    ensures OneLine(":") && OneLine(": ") && OneLine("- ") && OneLine("-")
  {
  }

  lemma {:induction false} EntriesPieces(entries: seq<Entry>, indent: nat)
    requires entries != [] && forall i :: 0 <= i < |entries| ==> OneLine(entries[i].key) && OneLiners(entries[i].value)
    ensures Pieces(PrintedEntries(entries, indent)) == EntriesLines(entries, indent)
    decreases entries, 1
  {
    hide Pieces, PrintedEntry, EntryLines, OneLine, OneLiners;
    EntryPieces(entries[0], indent);
    if |entries| == 1 {
      assert EntriesLines(entries[1..], indent) == [];
    } else {
      EntriesPieces(entries[1..], indent);
      PiecesConcat(PrintedEntry(entries[0], indent), PrintedEntries(entries[1..], indent));
    }
  }

  lemma ItemPieces(item: Yaml, indent: nat)
    requires OneLiners(item)
    ensures Pieces(PrintedItem(item, indent)) == ItemLines(item, indent)
    decreases item, 3
  {
    hide Pieces, Printed, NodeLines, OneLine;
    SpacesOneLine(indent);
    Colons();
    OneLineConcat(Spaces(indent), "- ");
    if item.Scalar? {
      OneLineConcat(Spaces(indent) + "- ", item.text);
      OnePiece(PrintedItem(item, indent));
    } else if InlineMap(item) {
      var k, v := item.entries[0].key, item.entries[0].value.text;
      OneLineConcat(Spaces(indent) + "- ", k);
      OneLineConcat(Spaces(indent) + "- " + k, ": ");
      OneLineConcat(Spaces(indent) + "- " + k + ": ", v);
      OnePiece(PrintedItem(item, indent));
    } else {
      OneLineConcat(Spaces(indent), "-");
      OnePiece(Spaces(indent) + "-");
      PiecesConcat(Spaces(indent) + "-", Printed(item, indent + 2));
      NodePieces(item, indent + 2);
    }
  }

  lemma {:induction false} ItemsPieces(items: seq<Yaml>, indent: nat)
    requires items != [] && forall i :: 0 <= i < |items| ==> OneLiners(items[i])
    ensures Pieces(PrintedItems(items, indent)) == ItemsLines(items, indent)
    decreases items, 1
  {
    hide Pieces, PrintedItem, ItemLines, OneLiners;
    ItemPieces(items[0], indent);
    if |items| == 1 {
      assert ItemsLines(items[1..], indent) == [];
    } else {
      ItemsPieces(items[1..], indent);
      PiecesConcat(PrintedItem(items[0], indent), PrintedItems(items[1..], indent));
    }
  }

  // ----- How printed lines are classified ------------------------------------------------

  lemma IndentOf(indent: nat, body: string)
    requires body != [] && body[0] != ' '
    ensures CountIndent(Spaces(indent) + body) == indent && Body(Spaces(indent) + body) == body
  {
    SpacesEndUnique(Spaces(indent) + body, 0, indent);
  }

  lemma {:induction false} SpacesEndUnique(line: string, i: nat, j: nat)
    requires i <= j <= |line| && (forall k :: i <= k < j ==> line[k] == ' ') && (j < |line| ==> line[j] != ' ')
    ensures SpacesEnd(line, i) == j
    decreases j - i
  {
    if i < j { SpacesEndUnique(line, i + 1, j); }
  }

  lemma NotBlank(line: string, i: nat)
    requires i < |line| && !IsSpace(line[i])
    ensures !BlankLine(line)
  {
    TrimOfBlank(line);
  }

  /** A line that opens an entry of a map at `indent`, with `tail` behind the colon. */
  ghost predicate EntryLine(line: string, indent: nat, key: string, tail: string)
  {
    !BlankLine(line) && CountIndent(line) == indent && !ItemLine(line) &&
    Find(Body(line), ":", 0) == Some(|key|) && |key| < |Body(line)| &&
    Trim(Body(line)[..|key|]) == key && Body(line)[|key| + 1..] == tail
  }

  lemma ReadsEntryLine(indent: nat, key: string, tail: string)
    requires CleanKey(key) && !StartsWith(key, "- ")
    ensures EntryLine(Spaces(indent) + key + ":" + tail, indent, key, tail)
  {
    var body := key + ":" + tail;
    var line := Spaces(indent) + body;
    assert Spaces(indent) + key + ":" + tail == line;
    assert body[|key|] == ':' && !IsSpace(body[0]);
    assert line[indent] == body[0];
    NotBlank(line, indent);
    IndentOf(indent, body);
    FirstColon(key, tail);
    assert body[..|key|] == key && body[|key| + 1..] == tail;
    TrimOfTrimmed(key);
    NoDash(key, tail);
  }

  lemma NoDash(key: string, tail: string)
    requires !StartsWith(key, "- ")
    ensures !StartsWith(key + ":" + tail, "- ")
  {
    var body := key + ":" + tail;
    assert |key| >= 2 ==> body[..2] == key[..2];
    assert body[|key|] == ':';
  }

  lemma FirstColon(key: string, tail: string)
    requires ':' !in key
    ensures Find(key + ":" + tail, ":", 0) == Some(|key|)
  {
    var body := key + ":" + tail;
    AtSingle(body, |key|, ':');
    forall q | 0 <= q < |key| ensures !At(body, q, ":") {
      AtSingle(body, q, ':');
      assert body[q] == key[q];
    }
    FindFirst(body, ":", 0, |key|);
  }

  ghost predicate ItemLineOf(line: string, indent: nat, rest: string)
  {
    !BlankLine(line) && CountIndent(line) == indent && ItemLine(line) && Body(line)[2..] == rest
  }

  lemma ReadsItemLine(indent: nat, rest: string)
    ensures ItemLineOf(Spaces(indent) + "- " + rest, indent, rest)
  {
    var body := "- " + rest;
    var line := Spaces(indent) + body;
    assert Spaces(indent) + "- " + rest == line;
    assert body[0] == '-' && line[indent] == '-';
    NotBlank(line, indent);
    IndentOf(indent, body);
    assert body[..2] == "- ";
  }

  /** The line above a nested list item is no item line for the reader, and no entry either. */
  lemma ReadsBareDash(indent: nat)
    ensures var line := Spaces(indent) + "-";
            !BlankLine(line) && CountIndent(line) == indent && !ItemLine(line) && Find(Body(line), ":", 0) == None
  {
    var line := Spaces(indent) + "-";
    assert line[indent] == '-';
    NotBlank(line, indent);
    IndentOf(indent, "-");
    if Find("-", ":", 0).Some? { AtSingle("-", Find("-", ":", 0).value, ':'); }
  }

  // ----- Reading printed lines -----------------------------------------------------------

  ghost predicate Has(lines: seq<string>, i: nat, ls: seq<string>)
  {
    i + |ls| <= |lines| && forall j :: i <= j < i + |ls| ==> lines[j] == ls[j - i]
  }

  lemma HasConcat(lines: seq<string>, i: nat, a: seq<string>, b: seq<string>)
    requires Has(lines, i, a + b)
    ensures Has(lines, i, a) && Has(lines, i + |a|, b)
  {
    forall j | i <= j < i + |a| ensures lines[j] == a[j - i] {
      assert lines[j] == (a + b)[j - i];
    }
    forall j | i + |a| <= j < i + |a| + |b| ensures lines[j] == b[j - i - |a|] {
      assert lines[j] == (a + b)[j - i];
    }
  }

  /** From `k` on, blank lines aside, nothing belongs to a block at `indent`. */
  ghost predicate Ends(lines: seq<string>, k: nat, indent: nat)
  {
    k <= |lines| && (NextLine(lines, k) == |lines| || CountIndent(lines[NextLine(lines, k)]) < indent)
  }

  lemma {:induction false} EntriesSkip(lines: seq<string>, k: nat, indent: nat, read: seq<Entry>)
    requires k <= |lines|
    ensures ParseEntries(lines, k, indent, read) == ParseEntries(lines, NextLine(lines, k), indent, read)
    decreases |lines| - k
  {
    if k < |lines| && BlankLine(lines[k]) { EntriesSkip(lines, k + 1, indent, read); }
  }

  lemma {:induction false} ItemsSkip(lines: seq<string>, k: nat, indent: nat, read: seq<Yaml>)
    requires k <= |lines|
    ensures ParseItems(lines, k, indent, read) == ParseItems(lines, NextLine(lines, k), indent, read)
    decreases |lines| - k
  {
    if k < |lines| && BlankLine(lines[k]) { ItemsSkip(lines, k + 1, indent, read); }
  }

  /** One readable entry takes exactly its own lines. */
  lemma EntryReads(lines: seq<string>, i: nat, e: Entry, indent: nat, read: seq<Entry>)
    requires CleanKey(e.key) && !StartsWith(e.key, "- ") && Readable(e.value)
    requires Has(lines, i, EntryLines(e, indent)) && Ends(lines, i + |EntryLines(e, indent)|, indent + 2)
    ensures ParseEntries(lines, i, indent, read)
         == ParseEntries(lines, i + |EntryLines(e, indent)|, indent, read + [e])
    decreases e, 3
  {
    hide Readable, CleanKey, StartsWith, NodeLines, BlankLine, ItemLine, CountIndent, Body, Trim, ParseBlock, NextLine;
    var k := i + |EntryLines(e, indent)|;
    if e.value.Scalar? {
      var tail := " " + e.value.text;
      assert Spaces(indent) + e.key + ": " + e.value.text == Spaces(indent) + e.key + ":" + tail;
      ReadsEntryLine(indent, e.key, tail);
      TrimOfTail(e.value);
    } else {
      assert Spaces(indent) + e.key + ":" == Spaces(indent) + e.key + ":" + "";
      ReadsEntryLine(indent, e.key, "");
      TrimOfTrimmed("");
      HasConcat(lines, i, [Spaces(indent) + e.key + ":"], NodeLines(e.value, indent + 2));
      BlockReads(lines, i + 1, e.value, indent + 2);
      EntriesSkip(lines, k, indent, read + [e]);
    }
  }

  lemma TrimOfTail(value: Yaml)
    requires value.Scalar? && Readable(value)
    ensures Trim(" " + value.text) == value.text && value.text != []
  {
    TrimAround(" ", value.text, "");
    assert " " + value.text + "" == " " + value.text;
  }

  /** A line that starts with a clean key is never blank and stands at its own indentation. */
  lemma KeyLineIndent(indent: nat, key: string, tail: string)
    requires CleanKey(key)
    ensures var line := Spaces(indent) + key + ":" + tail;
            !BlankLine(line) && CountIndent(line) == indent
    ensures StartsWith(key, "- ") ==> ItemLine(Spaces(indent) + key + ":" + tail)
  {
    var body := key + ":" + tail;
    var line := Spaces(indent) + body;
    assert Spaces(indent) + key + ":" + tail == line;
    assert body[|key|] == ':' && !IsSpace(body[0]);
    assert line[indent] == body[0];
    NotBlank(line, indent);
    IndentOf(indent, body);
    if StartsWith(key, "- ") { assert body[..2] == key[..2]; }
  }

  /** The first line of printed entries. */
  lemma EntriesHead(lines: seq<string>, k: nat, entries: seq<Entry>, indent: nat)
    requires entries != [] && CleanKey(entries[0].key) && Has(lines, k, EntriesLines(entries, indent))
    ensures k < |lines| && !BlankLine(lines[k]) && CountIndent(lines[k]) == indent && NextLine(lines, k) == k
    ensures ItemLine(lines[k]) <==> StartsWith(entries[0].key, "- ")
  {
    hide CleanKey, StartsWith, BlankLine, CountIndent, ItemLine, NodeLines;
    var e := entries[0];
    HasConcat(lines, k, EntryLines(e, indent), EntriesLines(entries[1..], indent));
    var tail := if e.value.Scalar? then " " + e.value.text else "";
    assert lines[k] == Spaces(indent) + e.key + ":" + tail;
    KeyLineIndent(indent, e.key, tail);
    if !StartsWith(e.key, "- ") { ReadsEntryLine(indent, e.key, tail); }
  }

  lemma EndsSoon(lines: seq<string>, k: nat, entries: seq<Entry>, indent: nat)
    requires forall i :: 0 <= i < |entries| ==> CleanKey(entries[i].key)
    requires Has(lines, k, EntriesLines(entries, indent))
    requires entries == [] ==> Ends(lines, k, indent)
    ensures Ends(lines, k, indent + 2)
  {
    hide CleanKey, BlankLine, CountIndent, NextLine;
    if entries != [] { EntriesHead(lines, k, entries, indent); }
  }

  lemma {:induction false} EntriesRead(lines: seq<string>, i: nat, entries: seq<Entry>, indent: nat, read: seq<Entry>)
    requires Readable(Map(entries)) && Has(lines, i, EntriesLines(entries, indent))
    requires Ends(lines, i + |EntriesLines(entries, indent)|, indent)
    ensures ParseEntries(lines, i, indent, read)
         == Parsed(Map(read + entries), NextLine(lines, i + |EntriesLines(entries, indent)|))
    decreases entries, 1
  {
    hide CleanKey, StartsWith, EntryLines, BlankLine, CountIndent, ItemLine, Find, Trim, Body, Has;
    if entries == [] {
      EntriesSkip(lines, i, indent, read);
      assert read + [] == read;
    } else {
      var e, rest := entries[0], entries[1..];
      HasConcat(lines, i, EntryLines(e, indent), EntriesLines(rest, indent));
      var k := i + |EntryLines(e, indent)|;
      EndsSoon(lines, k, rest, indent);
      EntryReads(lines, i, e, indent, read);
      EntriesRead(lines, k, rest, indent, read + [e]);
      assert read + [e] + rest == read + entries;
    }
  }

  /** One readable item takes exactly its line. */
  lemma ItemReads(lines: seq<string>, i: nat, item: Yaml, indent: nat, read: seq<Yaml>)
    requires ReadableItem(item) && Has(lines, i, ItemLines(item, indent))
    ensures ParseItems(lines, i, indent, read) == ParseItems(lines, i + 1, indent, read + [item])
  {
    hide BlankLine, ItemLine, CountIndent, Body, Trim, ParseBlock;
    ReadsItemLine(indent, item.text);
    TrimOfTrimmed(item.text);
  }

  lemma {:induction false} ItemsRead(lines: seq<string>, i: nat, items: seq<Yaml>, indent: nat, read: seq<Yaml>)
    requires (forall j :: 0 <= j < |items| ==> ReadableItem(items[j])) && Has(lines, i, ItemsLines(items, indent))
    requires Ends(lines, i + |ItemsLines(items, indent)|, indent)
    ensures ParseItems(lines, i, indent, read)
         == Parsed(List(read + items), NextLine(lines, i + |ItemsLines(items, indent)|))
    decreases items, 1
  {
    hide ReadableItem, BlankLine, CountIndent, ItemLine, Trim, Body;
    if items == [] {
      ItemsSkip(lines, i, indent, read);
      assert read + [] == read;
    } else {
      assert |ItemLines(items[0], indent)| == 1 by { ScalarLine(items[0], indent); }
      HasConcat(lines, i, ItemLines(items[0], indent), ItemsLines(items[1..], indent));
      ItemReads(lines, i, items[0], indent, read);
      ItemsRead(lines, i + 1, items[1..], indent, read + [items[0]]);
      assert read + [items[0]] + items[1..] == read + items;
    }
  }

  lemma ScalarLine(item: Yaml, indent: nat)
    requires ReadableItem(item)
    ensures |ItemLines(item, indent)| == 1
  {
  }

  lemma EmptyIsBlank()
    ensures BlankLine("")
  {
    TrimOfTrimmed("");
  }

  /** A printed readable container is read back whole, and nothing behind it is touched. */
  lemma BlockReads(lines: seq<string>, i: nat, node: Yaml, indent: nat)
    requires Readable(node) && !node.Scalar? && Has(lines, i, NodeLines(node, indent))
    requires Ends(lines, i + |NodeLines(node, indent)|, indent)
    ensures ParseBlock(lines, i, indent) == Parsed(node, NextLine(lines, i + |NodeLines(node, indent)|))
    decreases node, 2
  {
    hide ParseEntries, ParseItems, EntriesLines, ItemsLines, CountIndent, BlankLine, ItemLine, CleanKey;
    if node == Map([]) {
      assert lines[i] == "";
      EmptyIsBlank();
    } else if node.Map? {
      EntriesHead(lines, i, node.entries, indent);
      EntriesRead(lines, i, node.entries, indent, []);
      assert [] + node.entries == node.entries;
    } else {
      ItemsHead(lines, i, node.items, indent);
      ItemsRead(lines, i, node.items, indent, []);
      assert [] + node.items == node.items;
    }
  }

  /** The first line of printed items. */
  lemma ItemsHead(lines: seq<string>, k: nat, items: seq<Yaml>, indent: nat)
    requires items != [] && Has(lines, k, ItemsLines(items, indent))
    ensures k < |lines| && !BlankLine(lines[k]) && CountIndent(lines[k]) == indent && NextLine(lines, k) == k
    ensures ItemLine(lines[k]) <==> items[0].Scalar? || InlineMap(items[0])
    ensures items[0].Scalar? ==> ItemLineOf(lines[k], indent, items[0].text)
    ensures InlineMap(items[0]) ==>
              ItemLineOf(lines[k], indent, items[0].entries[0].key + ": " + items[0].entries[0].value.text)
  {
    hide BlankLine, CountIndent, ItemLine, Body;
    var item := items[0];
    HasConcat(lines, k, ItemLines(item, indent), ItemsLines(items[1..], indent));
    if item.Scalar? {
      ReadsItemLine(indent, item.text);
    } else if InlineMap(item) {
      var rest := item.entries[0].key + ": " + item.entries[0].value.text;
      assert Spaces(indent) + "- " + item.entries[0].key + ": " + item.entries[0].value.text == Spaces(indent) + "- " + rest;
      ReadsItemLine(indent, rest);
    } else {
      ReadsBareDash(indent);
    }
  }

  // ----- What the reader can return ------------------------------------------------------

  ghost predicate CleanLines(lines: seq<string>)
  {
    forall i :: 0 <= i < |lines| ==> OneLine(lines[i])
  }

  lemma PartOneLine(s: string, i: nat, j: nat)
    requires i <= j <= |s| && OneLine(s)
    ensures OneLine(s[i..j])
  {
  }

  lemma TrimOneLine(s: string)
    requires OneLine(s)
    ensures OneLine(Trim(s)) && Trimmed(Trim(s))
  {
    var start := SkipSpace(s, 0);
    PartOneLine(s, start, BackOver(s, start, |s|));
  }

  lemma TrimNoColon(s: string)
    requires ':' !in s
    ensures ':' !in Trim(s)
  {
  }

  /** Blanks are all that trimming removes, so a colon stays. */
  lemma TrimKeepsColon(s: string, k: nat)
    requires k < |s| && s[k] == ':'
    ensures ':' in Trim(s)
  {
    var start := SkipSpace(s, 0);
    SkipSpaceBlank(s, 0);
    assert start <= k;
    BackOverKeeps(s, start, |s|, k);
    assert Trim(s)[k - start] == ':';
  }

  lemma {:induction false} BackOverKeeps(s: string, lo: nat, hi: nat, k: nat)
    requires lo <= k < hi <= |s| && !IsSpace(s[k])
    ensures k < BackOver(s, lo, hi)
    decreases hi
  {
    if IsSpace(s[hi - 1]) { BackOverKeeps(s, lo, hi - 1, k); }
  }

  lemma KeyOfLine(body: string, colon: nat)
    requires OneLine(body) && Find(body, ":", 0) == Some(colon)
    ensures CleanKey(Trim(body[..colon])) && OneLine(body[colon + 1..])
  {
    PartOneLine(body, 0, colon);
    PartOneLine(body, colon + 1, |body|);
    assert ':' !in body[..colon] by {
      forall q | 0 <= q < colon ensures body[q] != ':' {
        AtSingle(body, q, ':');
        if body[q] == ':' { FindSkips(body, ":", 0, q); }
      }
    }
    TrimOneLine(body[..colon]);
    TrimNoColon(body[..colon]);
  }

  lemma {:induction false} BlockFromReader(lines: seq<string>, i: nat, indent: nat)
    requires i <= |lines| && CleanLines(lines)
    ensures FromReader(ParseBlock(lines, i, indent).value)
    decreases |lines| - i, 1
  {
    hide ItemLine, CountIndent, BlankLine, ParseEntries, ParseItems, CleanKey, FromItem, FromEntry;
    var k := NextLine(lines, i);
    if k < |lines| && CountIndent(lines[k]) >= indent {
      if ItemLine(lines[k]) {
        ItemsFromReader(lines, k, CountIndent(lines[k]), []);
        FirstItemKept(lines, k);
      } else {
        EntriesFromReader(lines, k, CountIndent(lines[k]), []);
      }
    }
  }

  lemma {:induction false} EntriesFromReader(lines: seq<string>, i: nat, indent: nat, read: seq<Entry>)
    requires i <= |lines| && CleanLines(lines) && FromReader(Map(read))
    ensures FromReader(ParseEntries(lines, i, indent, read).value)
    decreases |lines| - i, 0
  {
    hide ItemLine, CountIndent, BlankLine, Find, Trim, ParseBlock, CleanKey;
    if i < |lines| {
      var line := lines[i];
      if BlankLine(line) {
        EntriesFromReader(lines, i + 1, indent, read);
      } else if CountIndent(line) >= indent && !ItemLine(line) && Find(Body(line), ":", 0).Some? {
        var colon := Find(Body(line), ":", 0).value;
        PartOneLine(line, CountIndent(line), |line|);
        KeyOfLine(Body(line), colon);
        TrimOneLine(Body(line)[colon + 1..]);
        var rest := Trim(Body(line)[colon + 1..]);
        var key := Trim(Body(line)[..colon]);
        if rest == [] {
          BlockFromReader(lines, i + 1, indent + 2);
          var b := ParseBlock(lines, i + 1, indent + 2);
          EntriesFromReader(lines, b.idx, indent, read + [Entry(key, b.value)]);
        } else {
          EntriesFromReader(lines, i + 1, indent, read + [Entry(key, Scalar(rest))]);
        }
      }
    }
  }

  ghost predicate AllFromItem(items: seq<Yaml>)
  {
    forall j :: 0 <= j < |items| ==> FromItem(items[j])
  }

  lemma {:induction false} ItemsFromReader(lines: seq<string>, i: nat, indent: nat, read: seq<Yaml>)
    requires i <= |lines| && CleanLines(lines) && AllFromItem(read)
    ensures ParseItems(lines, i, indent, read).value.List?
    ensures AllFromItem(ParseItems(lines, i, indent, read).value.items)
    ensures read <= ParseItems(lines, i, indent, read).value.items
    decreases |lines| - i, 0
  {
    hide ItemLine, CountIndent, BlankLine, Trim, ParseBlock, CleanKey, Trimmed, OneLine, FromReader;
    if i < |lines| {
      var line := lines[i];
      if BlankLine(line) {
        ItemsFromReader(lines, i + 1, indent, read);
      } else if CountIndent(line) >= indent && ItemLine(line) {
        ItemParts(line);
        var rest := Body(line)[2..];
        BlockFromReader(lines, i + 1, indent + 2);
        var b := ParseBlock(lines, i + 1, indent + 2);
        BlockIsContainer(lines, i + 1, indent + 2);
        if Trim(rest) == [] {
          FromItemCases(b.value, Trim(rest));
          AllFromItemSnoc(read, b.value);
          ItemsFromReader(lines, b.idx, indent, read + [b.value]);
        } else if ':' in rest && rest[|rest| - 1] == ':' {
          FromItemCases(b.value, Trim(rest[..|rest| - 1]));
          AllFromItemSnoc(read, Map([Entry(Trim(rest[..|rest| - 1]), b.value)]));
          ItemsFromReader(lines, b.idx, indent, read + [Map([Entry(Trim(rest[..|rest| - 1]), b.value)])]);
        } else {
          AllFromItemSnoc(read, Scalar(Trim(rest)));
          ItemsFromReader(lines, i + 1, indent, read + [Scalar(Trim(rest))]);
        }
      }
    }
  }

  lemma AllFromItemSnoc(read: seq<Yaml>, item: Yaml)
    requires AllFromItem(read) && FromItem(item)
    ensures AllFromItem(read + [item])
  {
    hide FromItem;
  }

  lemma FromItemCases(node: Yaml, key: string)
    requires FromReader(node) && Trimmed(key) && OneLine(key)
    ensures FromItem(node) && FromItem(Map([Entry(key, node)]))
  {
  }

  lemma ItemParts(line: string)
    requires OneLine(line) && ItemLine(line)
    ensures var rest := Body(line)[2..];
            Trimmed(Trim(rest)) && OneLine(Trim(rest)) &&
            (rest != [] ==> Trimmed(Trim(rest[..|rest| - 1])) && OneLine(Trim(rest[..|rest| - 1])))
  {
    hide Trim, CountIndent;
    PartOneLine(line, CountIndent(line), |line|);
    var body := Body(line);
    PartOneLine(body, 2, |body|);
    var rest := body[2..];
    TrimOneLine(rest);
    if rest != [] {
      PartOneLine(rest, 0, |rest| - 1);
      TrimOneLine(rest[..|rest| - 1]);
    }
  }

  lemma BlockIsContainer(lines: seq<string>, i: nat, indent: nat)
    requires i <= |lines|
    ensures !ParseBlock(lines, i, indent).value.Scalar?
  {
    hide ItemLine, CountIndent, BlankLine;
    var k := NextLine(lines, i);
    if k < |lines| {
      EntriesKeepRead(lines, k, CountIndent(lines[k]), []);
      ItemsKeepRead(lines, k, CountIndent(lines[k]), []);
    }
  }

  lemma {:induction false} EntriesKeepRead(lines: seq<string>, i: nat, indent: nat, read: seq<Entry>)
    requires i <= |lines|
    ensures ParseEntries(lines, i, indent, read).value.Map?
    ensures read <= ParseEntries(lines, i, indent, read).value.entries
    decreases |lines| - i
  {
    hide ItemLine, CountIndent, BlankLine, Find, Trim, ParseBlock;
    if i < |lines| {
      var line := lines[i];
      if BlankLine(line) {
        EntriesKeepRead(lines, i + 1, indent, read);
      } else if CountIndent(line) >= indent && !ItemLine(line) && Find(Body(line), ":", 0).Some? {
        var colon := Find(Body(line), ":", 0).value;
        var key, rest := Trim(Body(line)[..colon]), Trim(Body(line)[colon + 1..]);
        var b := ParseBlock(lines, i + 1, indent + 2);
        if rest == [] {
          EntriesKeepRead(lines, b.idx, indent, read + [Entry(key, b.value)]);
        } else {
          EntriesKeepRead(lines, i + 1, indent, read + [Entry(key, Scalar(rest))]);
        }
      }
    }
  }

  lemma {:induction false} ItemsKeepRead(lines: seq<string>, i: nat, indent: nat, read: seq<Yaml>)
    requires i <= |lines|
    ensures ParseItems(lines, i, indent, read).value.List?
    ensures read <= ParseItems(lines, i, indent, read).value.items
    decreases |lines| - i
  {
    hide ItemLine, CountIndent, BlankLine, Trim, ParseBlock;
    if i < |lines| {
      var line := lines[i];
      if BlankLine(line) {
        ItemsKeepRead(lines, i + 1, indent, read);
      } else if CountIndent(line) >= indent && ItemLine(line) {
        var rest := Body(line)[2..];
        var b := ParseBlock(lines, i + 1, indent + 2);
        if Trim(rest) == [] {
          ItemsKeepRead(lines, b.idx, indent, read + [b.value]);
        } else if ':' in rest && rest[|rest| - 1] == ':' {
          ItemsKeepRead(lines, b.idx, indent, read + [Map([Entry(Trim(rest[..|rest| - 1]), b.value)])]);
        } else {
          ItemsKeepRead(lines, i + 1, indent, read + [Scalar(Trim(rest))]);
        }
      }
    }
  }

  lemma FirstItemKept(lines: seq<string>, k: nat)
    requires k < |lines| && !BlankLine(lines[k]) && ItemLine(lines[k])
    ensures ParseItems(lines, k, CountIndent(lines[k]), []).value.List?
    ensures ParseItems(lines, k, CountIndent(lines[k]), []).value.items != []
  {
    hide ItemLine, CountIndent, BlankLine, Trim, ParseBlock;
    var indent, rest := CountIndent(lines[k]), Body(lines[k])[2..];
    var b := ParseBlock(lines, k + 1, indent + 2);
    if Trim(rest) == [] {
      ItemsKeepRead(lines, b.idx, indent, [] + [b.value]);
    } else if ':' in rest && rest[|rest| - 1] == ':' {
      ItemsKeepRead(lines, b.idx, indent, [] + [Map([Entry(Trim(rest[..|rest| - 1]), b.value)])]);
    } else {
      ItemsKeepRead(lines, k + 1, indent, [] + [Scalar(Trim(rest))]);
    }
  }

  // ----- What is not read back -----------------------------------------------------------

  /** A tree the reader could return but that is not readable is read as something else. */
  lemma BlockMisread(lines: seq<string>, i: nat, node: Yaml, indent: nat)
    requires FromReader(node) && !Readable(node) && Has(lines, i, NodeLines(node, indent))
    ensures ParseBlock(lines, i, indent).value != node
    decreases node, 2
  {
    hide ParseEntries, ParseItems, EntriesLines, ItemsLines, CountIndent, BlankLine, ItemLine, CleanKey, FromItem;
    if node.Map? {
      EntriesHead(lines, i, node.entries, indent);
      if StartsWith(node.entries[0].key, "- ") {
        ItemsKeepRead(lines, i, indent, []);
      } else {
        EntriesMisread(lines, i, node.entries, indent, []);
        assert [] + node.entries == node.entries;
      }
    } else {
      ItemsHead(lines, i, node.items, indent);
      if node.items[0].Scalar? || InlineMap(node.items[0]) {
        ItemsMisread(lines, i, node.items, indent, []);
        assert [] + node.items == node.items;
      } else {
        EntriesKeepRead(lines, i, indent, []);
      }
    }
  }

  lemma {:induction false} EntriesMisread(lines: seq<string>, i: nat, entries: seq<Entry>, indent: nat, read: seq<Entry>)
    requires FromReader(Map(entries)) && !Readable(Map(entries)) && Has(lines, i, EntriesLines(entries, indent))
    ensures ParseEntries(lines, i, indent, read).value != Map(read + entries)
    decreases entries, 1
  {
    hide CleanKey, StartsWith, EntryLines, BlankLine, CountIndent, ItemLine, Find, Trim, Body, Has, FromEntry, ParseBlock;
    var e, rest := entries[0], entries[1..];
    EntriesHead(lines, i, entries, indent);
    if StartsWith(e.key, "- ") {
      assert |read| < |read + entries|;
    } else {
      HasConcat(lines, i, EntryLines(e, indent), EntriesLines(rest, indent));
      if Readable(e.value) {
        var k := i + |EntryLines(e, indent)|;
        assert rest != [] by { UnreadableLater(entries); }
        UnreadableLater(entries);
        EndsSoon(lines, k, rest, indent);
        EntryReads(lines, i, e, indent, read);
        EntriesMisread(lines, k, rest, indent, read + [e]);
        assert read + [e] + rest == read + entries;
      } else {
        EntryMisread(lines, i, e, indent, read);
        assert (read + entries)[|read|] == e;
      }
    }
  }

  lemma UnreadableLater(entries: seq<Entry>)
    requires entries != [] && !Readable(Map(entries)) && FromReader(Map(entries))
    requires !StartsWith(entries[0].key, "- ") && Readable(entries[0].value)
    ensures entries[1..] != [] && !Readable(Map(entries[1..])) && FromReader(Map(entries[1..]))
  {
    hide CleanKey, StartsWith, FromEntry;
    var i :| 0 <= i < |entries| &&
      !(CleanKey(entries[i].key) && !StartsWith(entries[i].key, "- ") && Readable(entries[i].value));
    assert entries[i] == entries[1..][i - 1];
  }

  lemma EntryMisread(lines: seq<string>, i: nat, e: Entry, indent: nat, read: seq<Entry>)
    requires CleanKey(e.key) && !StartsWith(e.key, "- ") && FromEntry(e.value) && !Readable(e.value)
    requires Has(lines, i, EntryLines(e, indent))
    ensures var r := ParseEntries(lines, i, indent, read).value;
            r.Map? && |read| < |r.entries| && r.entries[|read|] != e
    decreases e, 3
  {
    hide Readable, CleanKey, StartsWith, NodeLines, BlankLine, ItemLine, CountIndent, Body, Trim, ParseBlock, NextLine, FromReader;
    assert FromReader(e.value) by { UnreadableIsContainer(e.value); }
    UnreadableIsContainer(e.value);
    assert Spaces(indent) + e.key + ":" == Spaces(indent) + e.key + ":" + "";
    ReadsEntryLine(indent, e.key, "");
    TrimOfTrimmed("");
    HasConcat(lines, i, [Spaces(indent) + e.key + ":"], NodeLines(e.value, indent + 2));
    BlockMisread(lines, i + 1, e.value, indent + 2);
    var b := ParseBlock(lines, i + 1, indent + 2);
    EntriesKeepRead(lines, b.idx, indent, read + [Entry(e.key, b.value)]);
  }

  lemma UnreadableIsContainer(value: Yaml)
    requires FromEntry(value) && !Readable(value)
    ensures FromReader(value) && !value.Scalar?
  {
  }

  lemma {:induction false} ItemsMisread(lines: seq<string>, i: nat, items: seq<Yaml>, indent: nat, read: seq<Yaml>)
    requires items != [] && AllFromItem(items) && (exists j :: 0 <= j < |items| && !ReadableItem(items[j]))
    requires Has(lines, i, ItemsLines(items, indent))
    ensures ParseItems(lines, i, indent, read).value != List(read + items)
    decreases items, 1
  {
    hide BlankLine, CountIndent, ItemLine, Trim, Body, Has, FromItem, ReadableItem, ItemLines, ParseBlock;
    var item := items[0];
    HasConcat(lines, i, ItemLines(item, indent), ItemsLines(items[1..], indent));
    if ReadableItem(item) {
      ScalarLine(item, indent);
      ItemReads(lines, i, item, indent, read);
      var j :| 0 <= j < |items| && !ReadableItem(items[j]);
      assert items[1..][j - 1] == items[j];
      assert AllFromItem(items[1..]);
      ItemsMisread(lines, i + 1, items[1..], indent, read + [item]);
      assert read + [item] + items[1..] == read + items;
    } else {
      ItemsHead(lines, i, items, indent);
      if item.Scalar? || InlineMap(item) {
        ItemMisread(lines, i, item, indent, read);
        assert (read + items)[|read|] == item;
      } else {
        assert |read| < |read + items|;
      }
    }
  }

  /** A scalar that ends in a colon is read as a map; an inline map is read as a scalar, or under
      a key that holds a colon. */
  lemma ItemMisread(lines: seq<string>, i: nat, item: Yaml, indent: nat, read: seq<Yaml>)
    requires FromItem(item) && !ReadableItem(item) && (item.Scalar? || InlineMap(item)) && i < |lines|
    requires item.Scalar? ==> ItemLineOf(lines[i], indent, item.text)
    requires InlineMap(item) ==>
               ItemLineOf(lines[i], indent, item.entries[0].key + ": " + item.entries[0].value.text)
    ensures var r := ParseItems(lines, i, indent, read).value;
            r.List? && |read| < |r.items| && r.items[|read|] != item
  {
    hide BlankLine, CountIndent, ItemLine, ParseBlock, Trim;
    var rest := Body(lines[i])[2..];
    var b := ParseBlock(lines, i + 1, indent + 2);
    if item.Scalar? {
      assert rest[|rest| - 1] == ':';
      TrimKeepsColon(rest, |rest| - 1);
      ItemsKeepRead(lines, b.idx, indent, read + [Map([Entry(Trim(rest[..|rest| - 1]), b.value)])]);
    } else {
      var k, v := item.entries[0].key, item.entries[0].value.text;
      InlineIsClean(item);
      assert rest[|k|] == ':';
      TrimKeepsColon(rest, |k|);
      if rest[|rest| - 1] == ':' {
        TrimKeepsColon(rest[..|rest| - 1], |k|);
        ItemsKeepRead(lines, b.idx, indent, read + [Map([Entry(Trim(rest[..|rest| - 1]), b.value)])]);
      } else {
        ItemsKeepRead(lines, i + 1, indent, read + [Scalar(Trim(rest))]);
      }
    }
  }

  lemma InlineIsClean(item: Yaml)
    requires FromItem(item) && InlineMap(item)
    ensures CleanKey(item.entries[0].key) && item.entries[0].value.text != []
  {
    hide CleanKey;
    assert !FromReader(item.entries[0].value);
    assert FromReader(item);
    assert FromEntry(item.entries[0].value);
  }

  // ----- The round trip ------------------------------------------------------------------

  lemma {:induction false} FromReaderOneLine(node: Yaml)
    requires FromReader(node)
    ensures OneLiners(node)
    decreases node, 0
  {
    hide Trimmed;
    if node.Map? {
      forall i | 0 <= i < |node.entries| ensures OneLiners(node.entries[i].value) {
        if !node.entries[i].value.Scalar? { FromReaderOneLine(node.entries[i].value); }
      }
    } else {
      forall i | 0 <= i < |node.items| ensures OneLiners(node.items[i]) {
        FromItemOneLine(node.items[i]);
      }
    }
  }

  lemma FromItemOneLine(item: Yaml)
    requires FromItem(item)
    ensures OneLiners(item)
    decreases item, 2
  {
    if FromEntry(item) {
      if !item.Scalar? { FromReaderOneLine(item); }
    } else {
      FromReaderOneLine(item.entries[0].value);
    }
  }

  lemma {:induction false} ReadableFromReader(node: Yaml)
    requires Readable(node)
    ensures FromEntry(node)
  {
    hide Trimmed, OneLine, CleanKey, CleanScalar;
    if node.Map? {
      forall i | 0 <= i < |node.entries| ensures FromEntry(node.entries[i].value) {
        ReadableFromReader(node.entries[i].value);
      }
    } else if node.List? {
      forall i | 0 <= i < |node.items| ensures FromItem(node.items[i]) {
        assert FromEntry(node.items[i]);
      }
    }
  }

  /** A printed tree is read back as itself exactly when it is a readable container. */
  lemma YamlReadsBack(node: Yaml)
    ensures ParseYaml(FileText(node)) == node <==> !node.Scalar? && Readable(node)
  {
    hide Pieces, Printed, ParseBlock, FromReader, Readable, GetLines, NodeLines;
    var lines := GetLines(FileText(node));
    FileLines(Printed(node, 0));
    PiecesClean(Printed(node, 0));
    BlockFromReader(lines, 0, 0);
    BlockIsContainer(lines, 0, 0);
    if Readable(node) && !node.Scalar? { ReadableFromReader(node); }
    if FromReader(node) {
      FromReaderOneLine(node);
      NodePieces(node, 0);
      AllLines(lines);
      if Readable(node) {
        assert |NodeLines(node, 0)| == |lines|;
        if !node.Scalar? { BlockReads(lines, 0, node, 0); }
      } else {
        BlockMisread(lines, 0, node, 0);
      }
    }
  }

  lemma AllLines(lines: seq<string>)
    ensures Has(lines, 0, lines) && Ends(lines, |lines|, 0)
  {
  }

  /** A tree that is not read back: a list in a list. */
  lemma ListInListLost()
    ensures ParseYaml(FileText(List([List([Scalar("a")])]))) != List([List([Scalar("a")])])
  {
    hide ParseYaml, FileText;
    var node := List([List([Scalar("a")])]);
    YamlReadsBack(node);
    assert !ReadableItem(node.items[0]);
  }
}

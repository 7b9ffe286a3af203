/** The YAML subset reader and printer of structure_adapters.cpp. */
module YamlText {
  import opened Text
  import opened TextLines

  datatype Yaml = Scalar(text: string) | Map(entries: seq<Entry>) | List(items: seq<Yaml>)

  datatype Entry = Entry(key: string, value: Yaml)

  // ----- Lines ---------------------------------------------------------------------------

  function SpacesEnd(line: string, i: nat): (j: nat)
    requires i <= |line|
    ensures i <= j <= |line|
    decreases |line| - i
  {
    if i < |line| && line[i] == ' ' then SpacesEnd(line, i + 1) else i
  }

  function CountIndent(line: string): (n: nat)
    ensures n <= |line|
  {
    SpacesEnd(line, 0)
  }

  function Body(line: string): string { line[CountIndent(line)..] }

  predicate BlankLine(line: string) { Trim(line) == [] }

  predicate ItemLine(line: string): (r: bool)
    ensures r ==> |Body(line)| >= 2
  {
    StartsWith(Body(line), "- ")
  }

  /** The first line at or after `idx` that is not blank. */
  function NextLine(lines: seq<string>, idx: nat): (j: nat)
    requires idx <= |lines|
    ensures idx <= j <= |lines|
    ensures j < |lines| ==> !BlankLine(lines[j])
    decreases |lines| - idx
  {
    if idx < |lines| && BlankLine(lines[idx]) then NextLine(lines, idx + 1) else idx
  }

  // ----- The language the reader accepts -------------------------------------------------

  datatype Parsed<+T> = Parsed(value: T, idx: nat)

  /** yaml_parse_block */
  function ParseBlock(lines: seq<string>, idx: nat, indent: nat): (r: Parsed<Yaml>)
    requires idx <= |lines|
    ensures idx <= r.idx <= |lines|
    decreases |lines| - idx, 1
  {
    var i := NextLine(lines, idx);
    if i == |lines| then Parsed(Map([]), i)
    else if CountIndent(lines[i]) < indent then Parsed(Map([]), i)
    else if ItemLine(lines[i]) then ParseItems(lines, i, CountIndent(lines[i]), [])
    else ParseEntries(lines, i, CountIndent(lines[i]), [])
  }

  /** The loop of yaml_parse_map, with the entries read so far. */
  function ParseEntries(lines: seq<string>, idx: nat, indent: nat, read: seq<Entry>): (r: Parsed<Yaml>)
    requires idx <= |lines|
    ensures idx <= r.idx <= |lines|
    decreases |lines| - idx, 0
  {
    if idx == |lines| then Parsed(Map(read), idx)
    else
      var line := lines[idx];
      if BlankLine(line) then ParseEntries(lines, idx + 1, indent, read)
      else if CountIndent(line) < indent || ItemLine(line) || Find(Body(line), ":", 0).None? then Parsed(Map(read), idx)
      else
        var colon := Find(Body(line), ":", 0).value;
        var key, rest := Trim(Body(line)[..colon]), Trim(Body(line)[colon + 1..]);
        if rest == [] then
          var b := ParseBlock(lines, idx + 1, indent + 2);
          ParseEntries(lines, b.idx, indent, read + [Entry(key, b.value)])
        else ParseEntries(lines, idx + 1, indent, read + [Entry(key, Scalar(rest))])
  }

  /** The loop of yaml_parse_array, with the items read so far. */
  function ParseItems(lines: seq<string>, idx: nat, indent: nat, read: seq<Yaml>): (r: Parsed<Yaml>)
    requires idx <= |lines|
    ensures idx <= r.idx <= |lines|
    decreases |lines| - idx, 0
  {
    if idx == |lines| then Parsed(List(read), idx)
    else
      var line := lines[idx];
      if BlankLine(line) then ParseItems(lines, idx + 1, indent, read)
      else if CountIndent(line) < indent || !ItemLine(line) then Parsed(List(read), idx)
      else
        var rest := Body(line)[2..];
        if Trim(rest) == [] then
          var b := ParseBlock(lines, idx + 1, indent + 2);
          ParseItems(lines, b.idx, indent, read + [b.value])
        else if ':' in rest && rest[|rest| - 1] == ':' then
          var b := ParseBlock(lines, idx + 1, indent + 2);
          ParseItems(lines, b.idx, indent, read + [Map([Entry(Trim(rest[..|rest| - 1]), b.value)])])
        else ParseItems(lines, idx + 1, indent, read + [Scalar(Trim(rest))])
  }

  /** parse_yaml; it never fails, and what stands behind the first block is dropped. */
  function ParseYaml(text: string): Yaml { ParseBlock(GetLines(text), 0, 0).value }

  // ----- The reader ----------------------------------------------------------------------

  class YamlLineCursor {
    const lines: seq<string>
    var idx: nat

    constructor (lines: seq<string>)
      ensures this.lines == lines && idx == 0
    {
      this.lines := lines;
      idx := 0;
    }

    method ReadBlock(indent: nat) returns (node: Yaml)
      requires idx <= |lines|
      modifies this
      ensures idx <= |lines| && Parsed(node, idx) == ParseBlock(lines, old(idx), indent)
      decreases |lines| - idx, 1
    {
      ghost var start := idx;
      while idx < |lines| && BlankLine(lines[idx])
        invariant start <= idx <= |lines|
        invariant NextLine(lines, start) == NextLine(lines, idx)
        decreases |lines| - idx
      {
        idx := idx + 1;
      }
      if idx >= |lines| { return Map([]); }
      var lineIndent := CountIndent(lines[idx]);
      if lineIndent < indent { return Map([]); }
      if ItemLine(lines[idx]) {
        node := ReadArray(lineIndent);
      } else {
        node := ReadMap(lineIndent);
      }
    }

    method ReadMap(indent: nat) returns (node: Yaml)
      requires idx <= |lines|
      modifies this
      ensures idx <= |lines| && Parsed(node, idx) == ParseEntries(lines, old(idx), indent, [])
      decreases |lines| - idx, 0
    {
      hide Find, BlankLine, ItemLine, Trim, CountIndent, ParseBlock;
      ghost var start := idx;
      var entries: seq<Entry> := [];
      while idx < |lines|
        invariant start <= idx <= |lines|
        invariant ParseEntries(lines, start, indent, []) == ParseEntries(lines, idx, indent, entries)
        decreases |lines| - idx
      {
        var line := lines[idx];
        if BlankLine(line) { idx := idx + 1; continue; }
        if CountIndent(line) < indent || ItemLine(line) { break; }
        var trimmed := Body(line);
        var colon := Find(trimmed, ":", 0);
        if colon.None? { break; }
        var key := Trim(trimmed[..colon.value]);
        var rest := Trim(trimmed[colon.value + 1..]);
        idx := idx + 1;
        if rest == [] {
          var value := ReadBlock(indent + 2);
          entries := entries + [Entry(key, value)];
        } else {
          entries := entries + [Entry(key, Scalar(rest))];
        }
      }
      return Map(entries);
    }

    method ReadArray(indent: nat) returns (node: Yaml)
      requires idx <= |lines|
      modifies this
      ensures idx <= |lines| && Parsed(node, idx) == ParseItems(lines, old(idx), indent, [])
      decreases |lines| - idx, 0
    {
      hide BlankLine, Trim, CountIndent, ParseBlock;
      ghost var start := idx;
      var items: seq<Yaml> := [];
      while idx < |lines|
        invariant start <= idx <= |lines|
        invariant ParseItems(lines, start, indent, []) == ParseItems(lines, idx, indent, items)
        decreases |lines| - idx
      {
        var line := lines[idx];
        if BlankLine(line) { idx := idx + 1; continue; }
        if CountIndent(line) < indent || !ItemLine(line) { break; }
        var rest := Body(line)[2..];
        idx := idx + 1;
        if Trim(rest) == [] {
          var value := ReadBlock(indent + 2);
          items := items + [value];
        } else if ':' in rest && rest[|rest| - 1] == ':' {
          var value := ReadBlock(indent + 2);
          items := items + [Map([Entry(Trim(rest[..|rest| - 1]), value)])];
        } else {
          items := items + [Scalar(Trim(rest))];
        }
      }
      return List(items);
    }
  }

  /** parse_yaml */
  method ReadYaml(text: string) returns (node: Yaml)
    ensures node == ParseYaml(text)
  {
    var cursor := new YamlLineCursor(GetLines(text));
    node := cursor.ReadBlock(0);
  }

  // ----- The printer ---------------------------------------------------------------------

  function Spaces(n: nat): (s: string)
    ensures |s| == n && forall i :: 0 <= i < n ==> s[i] == ' '
  {
    seq(n, _ => ' ')
  }

  /** A one-entry map of a scalar is the one container a list prints inline. */
  predicate InlineMap(node: Yaml)
  {
    node.Map? && |node.entries| == 1 && node.entries[0].value.Scalar?
  }

  /** yaml_serialize */
  function Printed(node: Yaml, indent: nat): string
    decreases node, 2
  {
    match node
    case Scalar(text) => text
    case Map(entries) => PrintedEntries(entries, indent)
    case List(items) => PrintedItems(items, indent)
  }

  function PrintedEntry(e: Entry, indent: nat): string
    decreases e, 3
  {
    if e.value.Scalar? then Spaces(indent) + e.key + ": " + e.value.text
    else Spaces(indent) + e.key + ":" + "\n" + Printed(e.value, indent + 2)
  }

  function PrintedEntries(entries: seq<Entry>, indent: nat): string
    decreases entries, 1
  {
    if entries == [] then []
    else if |entries| == 1 then PrintedEntry(entries[0], indent)
    else PrintedEntry(entries[0], indent) + "\n" + PrintedEntries(entries[1..], indent)
  }

  function PrintedItem(item: Yaml, indent: nat): string
    decreases item, 3
  {
    if item.Scalar? then Spaces(indent) + "- " + item.text
    else if InlineMap(item) then
      Spaces(indent) + "- " + item.entries[0].key + ": " + item.entries[0].value.text
    else Spaces(indent) + "-" + "\n" + Printed(item, indent + 2)
  }

  function PrintedItems(items: seq<Yaml>, indent: nat): string
    decreases items, 1
  {
    if items == [] then []
    else if |items| == 1 then PrintedItem(items[0], indent)
    else PrintedItem(items[0], indent) + "\n" + PrintedItems(items[1..], indent)
  }

  /** The file form: the printed tree and a newline. */
  function FileText(node: Yaml): string { Printed(node, 0) + "\n" }
}

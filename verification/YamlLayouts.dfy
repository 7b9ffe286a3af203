/** Texts that the YAML reader of structure_adapters.cpp reads as a given tree, however they are laid out: with
    blank lines, any deeper indentation, blanks around keys and values, and keys in list items. */
module YamlLayouts {
  import opened Text
  import opened TextLines
  import opened YamlText
  import opened YamlRoundTrip

  datatype Layout = MapOf(entries: seq<EntryOf>) | ListOf(items: seq<ItemOf>)

  /** What stands behind a colon or a dash: a text between blanks, a block on the lines below, or nothing. */
  datatype Slot = Inline(before: string, text: string, after: string) | Block(blank: string, inner: Layout) | Nothing(blank: string)

  /** An entry: blank lines above it, its indentation, its key with the blanks behind it, and its value. */
  datatype EntryOf = EntryOf(skipped: seq<string>, pad: nat, key: string, gap: string, slot: Slot)

  /** An item; or one that is the key of a map of its own, with a block or nothing below. */
  datatype ItemOf =
    | ItemOf(skipped: seq<string>, pad: nat, slot: Slot)
    | KeyOf(skipped: seq<string>, pad: nat, before: string, key: string, gap: string, slot: Slot)

  // ----- The lines of a layout -----------------------------------------------------------

  function SlotText(slot: Slot): string
  {
    match slot
    case Inline(before, text, after) => before + text + after
    case Block(blank, _) => blank
    case Nothing(blank) => blank
  }

  function SlotLines(slot: Slot): seq<string>
    decreases slot, 0
  {
    if slot.Block? then Lines(slot.inner) else []
  }

  function LineOfEntry(e: EntryOf): string { Spaces(e.pad) + (e.key + e.gap + ":" + SlotText(e.slot)) }

  function LinesOfEntry(e: EntryOf): seq<string>
    decreases e, 1
  {
    e.skipped + [LineOfEntry(e)] + SlotLines(e.slot)
  }

  function LinesOfEntries(entries: seq<EntryOf>): seq<string>
    decreases entries, 0
  {
    if entries == [] then [] else LinesOfEntry(entries[0]) + LinesOfEntries(entries[1..])
  }

  function ItemText(item: ItemOf): string
  {
    match item
    case ItemOf(_, _, slot) => SlotText(slot)
    case KeyOf(_, _, before, key, gap, _) => before + key + gap + ":"
  }

  function LineOfItem(item: ItemOf): string { Spaces(item.pad) + ("- " + ItemText(item)) }

  function LinesOfItem(item: ItemOf): seq<string>
    decreases item, 1
  {
    item.skipped + [LineOfItem(item)] + SlotLines(item.slot)
  }

  function LinesOfItems(items: seq<ItemOf>): seq<string>
    decreases items, 0
  {
    if items == [] then [] else LinesOfItem(items[0]) + LinesOfItems(items[1..])
  }

  function Lines(layout: Layout): seq<string>
    decreases layout, 1
  {
    match layout
    case MapOf(entries) => LinesOfEntries(entries)
    case ListOf(items) => LinesOfItems(items)
  }

  // ----- What a layout must keep to ------------------------------------------------------

  /** The indentation of a block is that of its first line. */
  function Pad(layout: Layout): nat
  {
    match layout
    case MapOf(entries) => if entries == [] then 0 else entries[0].pad
    case ListOf(items) => if items == [] then 0 else items[0].pad
  }

  predicate BlankLines(lines: seq<string>) { forall i :: 0 <= i < |lines| ==> Blanks(lines[i]) }

  /** A text in its place, or a block that stands at least two deeper than the block it is in. */
  predicate ProperSlot(slot: Slot, n: nat)
    decreases slot, 2
  {
    match slot
    case Inline(before, text, after) => Blanks(before) && text != "" && Trimmed(text) && Blanks(after)
    case Block(blank, inner) => Blanks(blank) && Pad(inner) >= n + 2 && Proper(inner)
    case Nothing(blank) => Blanks(blank)
  }

  /** A key without a colon, not taken for the dash of an item. */
  predicate ProperKey(key: string, gap: string)
  {
    Trimmed(key) && ':' !in key && Blanks(gap) && (key == "" ==> gap == "") && !StartsWith(key + gap, "- ")
  }

  /** A line may stand where its block does, or one further in. */
  predicate ProperEntry(e: EntryOf, n: nat)
    decreases e, 3
  {
    BlankLines(e.skipped) && n <= e.pad <= n + 1 && ProperKey(e.key, e.gap) && ProperSlot(e.slot, n)
  }

  predicate ProperItem(item: ItemOf, n: nat)
    decreases item, 3
  {
    BlankLines(item.skipped) && n <= item.pad <= n + 1 && ProperSlot(item.slot, n) &&
    match item
    case ItemOf(_, _, slot) => slot.Inline? ==> slot.after != "" || slot.text[|slot.text| - 1] != ':'
    case KeyOf(_, _, before, key, gap, slot) => Blanks(before) && Trimmed(key) && key != "" && Blanks(gap) && !slot.Inline?
  }

  predicate Proper(layout: Layout)
    decreases layout, 2
  {
    match layout
    case MapOf(entries) => entries != [] && forall i :: 0 <= i < |entries| ==> ProperEntry(entries[i], Pad(layout))
    case ListOf(items) => items != [] && forall i :: 0 <= i < |items| ==> ProperItem(items[i], Pad(layout))
  }

  // ----- What a layout means -------------------------------------------------------------

  function SlotMeant(slot: Slot): Yaml
    decreases slot, 0
  {
    match slot
    case Inline(_, text, _) => Scalar(text)
    case Block(_, inner) => Meant(inner)
    case Nothing(_) => Map([])
  }

  function ItemMeant(item: ItemOf): Yaml
    decreases item, 1
  {
    match item
    case ItemOf(_, _, slot) => SlotMeant(slot)
    case KeyOf(_, _, _, key, _, slot) => Map([Entry(key, SlotMeant(slot))])
  }

  function EntriesMeant(entries: seq<EntryOf>): seq<Entry>
    decreases entries, 0
  {
    if entries == [] then [] else [Entry(entries[0].key, SlotMeant(entries[0].slot))] + EntriesMeant(entries[1..])
  }

  function ItemsMeant(items: seq<ItemOf>): seq<Yaml>
    decreases items, 0
  {
    if items == [] then [] else [ItemMeant(items[0])] + ItemsMeant(items[1..])
  }

  function Meant(layout: Layout): Yaml
    decreases layout, 1
  {
    match layout
    case MapOf(entries) => Map(EntriesMeant(entries))
    case ListOf(items) => List(ItemsMeant(items))
  }

  // ----- One line ------------------------------------------------------------------------

  lemma SlotTrims(slot: Slot, n: nat)
    requires ProperSlot(slot, n)
    ensures Trim(SlotText(slot)) == if slot.Inline? then slot.text else ""
  {
    hide Proper, Trim;
    match slot
    case Inline(before, text, after) =>
      BlanksAreBlank(before);
      BlanksAreBlank(after);
      TrimAround(before, text, after);
    case Block(blank, _) =>
      BlanksAreBlank(blank);
      TrimOfBlank(blank);
    case Nothing(blank) =>
      BlanksAreBlank(blank);
      TrimOfBlank(blank);
  }

  /** The reader's view of an entry line. */
  lemma SeesEntry(e: EntryOf, n: nat)
    requires ProperKey(e.key, e.gap) && ProperSlot(e.slot, n)
    ensures var line, colon := LineOfEntry(e), |e.key| + |e.gap|;
            !BlankLine(line) && CountIndent(line) == e.pad && !ItemLine(line) && Find(Body(line), ":", 0) == Some(colon) &&
            colon < |Body(line)| && Trim(Body(line)[..colon]) == e.key &&
            Trim(Body(line)[colon + 1..]) == if e.slot.Inline? then e.slot.text else ""
  {
    hide Proper, Trim, ProperSlot, BlankLine, Body, CountIndent;
    var front, tail := e.key + e.gap, SlotText(e.slot);
    var body := front + ":" + tail;
    SlotTrims(e.slot, n);
    FrontOfKey(e.key, e.gap, tail);
    NotBlank(Spaces(e.pad) + body, e.pad);
    IndentOf(e.pad, body);
    FirstColon(front, tail);
    NoDash(front, tail);
    assert body[..|front|] == front && body[|front| + 1..] == tail;
  }

  lemma FrontOfKey(key: string, gap: string, tail: string)
    requires ProperKey(key, gap)
    ensures var body := key + gap + ":" + tail; !IsSpace(body[0]) && body[0] != ' '
    ensures ':' !in key + gap && Trim(key + gap) == key
  {
    hide Trim;
    BlanksAreBlank(gap);
    assert forall c :: c in gap ==> IsSpace(c);
    if key == "" {
      TrimOfTrimmed("");
      assert key + gap == "";
    } else {
      BlanksAreBlank("");
      TrimAround("", key, gap);
      assert "" + key + gap == key + gap;
      assert (key + gap + ":" + tail)[0] == key[0];
    }
  }

  /** ... and of an item line. */
  lemma SeesItem(item: ItemOf, n: nat)
    requires ProperItem(item, n)
    ensures var line := LineOfItem(item);
            !BlankLine(line) && CountIndent(line) == item.pad && ItemLine(line) && Body(line)[2..] == ItemText(item)
  {
    hide Proper, ProperSlot, ProperItem, Trim;
    ReadsItemLine(item.pad, ItemText(item));
    assert Spaces(item.pad) + "- " + ItemText(item) == LineOfItem(item);
  }

  /** The text of an item that is a key: it ends in its colon. */
  lemma SeesKey(item: ItemOf, n: nat)
    requires ProperItem(item, n) && item.KeyOf?
    ensures var rest := ItemText(item);
            Trim(rest) != "" && ':' in rest && rest[|rest| - 1] == ':' && Trim(rest[..|rest| - 1]) == item.key
  {
    hide Proper, ProperSlot, Trim;
    var rest := ItemText(item);
    var front := item.before + item.key + item.gap;
    assert rest == front + ":" && rest[..|rest| - 1] == front && rest[|rest| - 1] == ':';
    BlanksAreBlank(item.before);
    BlanksAreBlank(item.gap);
    TrimAround(item.before, item.key, item.gap);
    TrimOfBlank(rest);
    assert !IsSpace(rest[|rest| - 1]);
  }

  /** The text of an item that is none: it does not end in a colon, unless it is blank. */
  lemma SeesText(item: ItemOf, n: nat)
    requires ProperItem(item, n) && item.ItemOf?
    ensures var rest := ItemText(item);
            Trim(rest) == (if item.slot.Inline? then item.slot.text else "") &&
            (item.slot.Inline? ==> rest != "" && rest[|rest| - 1] != ':')
  {
    hide Proper, Trim, Trimmed;
    SlotTrims(item.slot, n);
    if item.slot.Inline? {
      var s := item.slot;
      BlanksAreBlank(s.after);
      assert s.after != "" ==> IsSpace(s.after[|s.after| - 1]);
    }
  }

  // ----- Blank lines ---------------------------------------------------------------------

  lemma {:induction false} SkipsBlanks(lines: seq<string>, i: nat, blank: seq<string>)
    requires BlankLines(blank) && Has(lines, i, blank)
    ensures NextLine(lines, i) == NextLine(lines, i + |blank|)
    decreases |blank|
  {
    hide Trim;
    if blank != [] {
      assert lines[i] == blank[0];
      BlanksAreBlank(blank[0]);
      TrimOfBlank(blank[0]);
      assert blank == [blank[0]] + blank[1..];
      HasConcat(lines, i, [blank[0]], blank[1..]);
      SkipsBlanks(lines, i + 1, blank[1..]);
    }
  }

  lemma NextIsHere(lines: seq<string>, i: nat)
    requires i < |lines| && !BlankLine(lines[i])
    ensures NextLine(lines, i) == i
  {
  }

  // ----- Reading a layout ----------------------------------------------------------------

  /** The line of an entry or an item, behind the blank lines above it. */
  lemma LineBehind(lines: seq<string>, i: nat, skipped: seq<string>, line: string, below: seq<string>)
    requires BlankLines(skipped) && Has(lines, i, skipped + [line] + below) && !BlankLine(line)
    ensures var j := i + |skipped|;
            j < |lines| && lines[j] == line && NextLine(lines, i) == j && Has(lines, j + 1, below)
  {
    hide BlankLine;
    HasConcat(lines, i, skipped + [line], below);
    HasConcat(lines, i, skipped, [line]);
    SkipsBlanks(lines, i, skipped);
    NextIsHere(lines, i + |skipped|);
  }

  /** Where less indented lines follow, a deeper block ends as well. */
  lemma EndsDeeper(lines: seq<string>, k: nat, n: nat, m: nat)
    requires Ends(lines, k, n) && n <= m
    ensures Ends(lines, k, m)
  {
    hide NextLine, CountIndent;
  }

  /** What stands below a line: its block, or nothing. */
  lemma SlotReads(lines: seq<string>, i: nat, slot: Slot, n: nat)
    requires ProperSlot(slot, n) && !slot.Inline? && Has(lines, i, SlotLines(slot)) && Ends(lines, i + |SlotLines(slot)|, n + 2)
    ensures ParseBlock(lines, i, n + 2) == Parsed(SlotMeant(slot), NextLine(lines, i + |SlotLines(slot)|))
    decreases slot, 3
  {
    hide NextLine, CountIndent, ItemLine, BlankLine, Lines, Meant, Proper, ParseEntries, ParseItems;
    if slot.Block? {
      EndsDeeper(lines, i + |SlotLines(slot)|, n + 2, Pad(slot.inner));
      BlockRead(lines, i, slot.inner, n + 2);
    }
  }

  lemma EntryRead(lines: seq<string>, i: nat, e: EntryOf, n: nat, read: seq<Entry>)
    requires ProperEntry(e, n) && Has(lines, i, LinesOfEntry(e)) && Ends(lines, i + |LinesOfEntry(e)|, n + 2)
    ensures ParseEntries(lines, i, n, read) ==
            ParseEntries(lines, i + |LinesOfEntry(e)|, n, read + [Entry(e.key, SlotMeant(e.slot))])
    decreases e, 4
  {
    hide ProperSlot, ProperKey, SlotLines, SlotMeant, BlankLine, ItemLine, CountIndent, Body, Trim, ParseBlock, NextLine, Has, Ends, LineOfEntry;
    var j, k := i + |e.skipped|, i + |LinesOfEntry(e)|;
    SeesEntry(e, n);
    LineBehind(lines, i, e.skipped, LineOfEntry(e), SlotLines(e.slot));
    EntriesSkip(lines, i, n, read);
    if e.slot.Inline? {
      InlineAlone(e.slot, n);
    } else {
      SlotReads(lines, j + 1, e.slot, n);
      EntriesSkip(lines, k, n, read + [Entry(e.key, SlotMeant(e.slot))]);
      EndsInside(lines, k, n + 2);
    }
  }

  lemma EndsInside(lines: seq<string>, k: nat, n: nat)
    requires Ends(lines, k, n)
    ensures k <= |lines|
  {
  }

  lemma InlineAlone(slot: Slot, n: nat)
    requires slot.Inline? && ProperSlot(slot, n)
    ensures slot.text != "" && SlotLines(slot) == [] && SlotMeant(slot) == Scalar(slot.text)
  {
  }

  /** In front of a line of the block, a deeper block ends. */
  lemma EndsBefore(lines: seq<string>, k: nat, skipped: seq<string>, line: string, below: seq<string>, n: nat)
    requires BlankLines(skipped) && Has(lines, k, skipped + [line] + below) && !BlankLine(line) && CountIndent(line) <= n + 1
    ensures Ends(lines, k, n + 2)
  {
    hide BlankLine, CountIndent;
    LineBehind(lines, k, skipped, line, below);
  }

  lemma {:induction false} EntriesRead(lines: seq<string>, i: nat, entries: seq<EntryOf>, n: nat, read: seq<Entry>)
    requires (forall j :: 0 <= j < |entries| ==> ProperEntry(entries[j], n)) && Has(lines, i, LinesOfEntries(entries))
    requires Ends(lines, i + |LinesOfEntries(entries)|, n)
    ensures ParseEntries(lines, i, n, read) ==
            Parsed(Map(read + EntriesMeant(entries)), NextLine(lines, i + |LinesOfEntries(entries)|))
    decreases entries, 3
  {
    hide ProperEntry, LinesOfEntry, LinesOfEntries, EntriesMeant, ParseEntries, BlankLine, CountIndent, ItemLine, Find, Trim, Body, Has, Ends, SlotMeant, NextLine, ParseBlock;
    if entries == [] {
      NoLines();
      EndsInside(lines, i, n);
      EntriesSkip(lines, i, n, read);
      EndsHere(lines, i, n, read, []);
      assert read + [] == read;
    } else {
      var e, rest := entries[0], entries[1..];
      FirstOfEntries(entries);
      var k := i + |LinesOfEntry(e)|;
      HasConcat(lines, i, LinesOfEntry(e), LinesOfEntries(rest));
      EntriesEnd(lines, k, rest, n);
      EntryRead(lines, i, e, n, read);
      EntriesRead(lines, k, rest, n, read + [Entry(e.key, SlotMeant(e.slot))]);
      assert read + [Entry(e.key, SlotMeant(e.slot))] + EntriesMeant(rest) == read + EntriesMeant(entries);
    }
  }

  lemma NoLines()
    ensures LinesOfEntries([]) == [] && EntriesMeant([]) == [] && LinesOfItems([]) == [] && ItemsMeant([]) == []
  {
  }

  lemma FirstOfEntries(entries: seq<EntryOf>)
    requires entries != []
    ensures LinesOfEntries(entries) == LinesOfEntry(entries[0]) + LinesOfEntries(entries[1..])
    ensures EntriesMeant(entries) == [Entry(entries[0].key, SlotMeant(entries[0].slot))] + EntriesMeant(entries[1..])
  {
    hide LinesOfEntry, SlotMeant;
  }

  lemma EndsHere(lines: seq<string>, i: nat, n: nat, entries: seq<Entry>, items: seq<Yaml>)
    requires Ends(lines, i, n)
    ensures ParseEntries(lines, NextLine(lines, i), n, entries) == Parsed(Map(entries), NextLine(lines, i))
    ensures ParseItems(lines, NextLine(lines, i), n, items) == Parsed(List(items), NextLine(lines, i))
  {
    hide BlankLine, CountIndent, ItemLine, Find, Trim, Body, ParseBlock;
  }

  lemma EntriesEnd(lines: seq<string>, k: nat, entries: seq<EntryOf>, n: nat)
    requires (forall j :: 0 <= j < |entries| ==> ProperEntry(entries[j], n)) && Has(lines, k, LinesOfEntries(entries))
    requires Ends(lines, k + |LinesOfEntries(entries)|, n)
    ensures Ends(lines, k, n + 2)
  {
    hide ProperSlot, ProperKey, BlankLine, CountIndent, Has, Ends, SlotLines, LineOfEntry;
    if entries == [] {
      EndsDeeper(lines, k, n, n + 2);
    } else {
      var e := entries[0];
      SeesEntry(e, n);
      HasConcat(lines, k, LinesOfEntry(e), LinesOfEntries(entries[1..]));
      EndsBefore(lines, k, e.skipped, LineOfEntry(e), SlotLines(e.slot), n);
    }
  }

  lemma ItemRead(lines: seq<string>, i: nat, item: ItemOf, n: nat, read: seq<Yaml>)
    requires ProperItem(item, n) && Has(lines, i, LinesOfItem(item)) && Ends(lines, i + |LinesOfItem(item)|, n + 2)
    ensures ParseItems(lines, i, n, read) == ParseItems(lines, i + |LinesOfItem(item)|, n, read + [ItemMeant(item)])
    decreases item, 4
  {
    hide ProperSlot, SlotLines, SlotMeant, BlankLine, ItemLine, CountIndent, Body, Trim, ParseBlock, NextLine, Has, Ends, LineOfItem, ItemText,
      ProperItem;
    var j, k := i + |item.skipped|, i + |LinesOfItem(item)|;
    SeesItem(item, n);
    ItemParts(item, n);
    LineBehind(lines, i, item.skipped, LineOfItem(item), SlotLines(item.slot));
    ItemsSkip(lines, i, n, read);
    if item.KeyOf? { SeesKey(item, n); } else { SeesText(item, n); }
    if item.slot.Inline? {
      InlineAlone(item.slot, n);
    } else {
      SlotReads(lines, j + 1, item.slot, n);
      ItemsSkip(lines, k, n, read + [ItemMeant(item)]);
      EndsInside(lines, k, n + 2);
    }
  }

  lemma ItemParts(item: ItemOf, n: nat)
    requires ProperItem(item, n)
    ensures BlankLines(item.skipped) && n <= item.pad <= n + 1 && ProperSlot(item.slot, n) && (item.KeyOf? ==> !item.slot.Inline?)
  {
  }

  lemma {:induction false} ItemsRead(lines: seq<string>, i: nat, items: seq<ItemOf>, n: nat, read: seq<Yaml>)
    requires (forall j :: 0 <= j < |items| ==> ProperItem(items[j], n)) && Has(lines, i, LinesOfItems(items))
    requires Ends(lines, i + |LinesOfItems(items)|, n)
    ensures ParseItems(lines, i, n, read) ==
            Parsed(List(read + ItemsMeant(items)), NextLine(lines, i + |LinesOfItems(items)|))
    decreases items, 3
  {
    hide ProperItem, LinesOfItem, LinesOfItems, ItemsMeant, ParseItems, BlankLine, CountIndent, ItemLine, Find, Trim, Body, Has, Ends, ItemMeant, NextLine, ParseBlock;
    if items == [] {
      NoLines();
      EndsInside(lines, i, n);
      ItemsSkip(lines, i, n, read);
      EndsHere(lines, i, n, [], read);
      assert read + [] == read;
    } else {
      var item, rest := items[0], items[1..];
      FirstOfItems(items);
      var k := i + |LinesOfItem(item)|;
      HasConcat(lines, i, LinesOfItem(item), LinesOfItems(rest));
      ItemsEnd(lines, k, rest, n);
      ItemRead(lines, i, item, n, read);
      ItemsRead(lines, k, rest, n, read + [ItemMeant(item)]);
      assert read + [ItemMeant(item)] + ItemsMeant(rest) == read + ItemsMeant(items);
    }
  }

  lemma FirstOfItems(items: seq<ItemOf>)
    requires items != []
    ensures LinesOfItems(items) == LinesOfItem(items[0]) + LinesOfItems(items[1..])
    ensures ItemsMeant(items) == [ItemMeant(items[0])] + ItemsMeant(items[1..])
  {
    hide LinesOfItem, ItemMeant;
  }

  lemma ItemsEnd(lines: seq<string>, k: nat, items: seq<ItemOf>, n: nat)
    requires (forall j :: 0 <= j < |items| ==> ProperItem(items[j], n)) && Has(lines, k, LinesOfItems(items))
    requires Ends(lines, k + |LinesOfItems(items)|, n)
    ensures Ends(lines, k, n + 2)
  {
    hide ProperSlot, ProperItem, BlankLine, CountIndent, Has, Ends, SlotLines, LineOfItem;
    if items == [] {
      EndsDeeper(lines, k, n, n + 2);
    } else {
      var item := items[0];
      ItemParts(item, n);
      SeesItem(item, n);
      HasConcat(lines, k, LinesOfItem(item), LinesOfItems(items[1..]));
      EndsBefore(lines, k, item.skipped, LineOfItem(item), SlotLines(item.slot), n);
    }
  }

  /** A block that is laid out at an indentation or deeper is read as what it means, up to the next line that is
      not blank. */
  lemma {:induction false} BlockRead(lines: seq<string>, i: nat, layout: Layout, least: nat)
    requires Proper(layout) && Pad(layout) >= least && Has(lines, i, Lines(layout)) && Ends(lines, i + |Lines(layout)|, Pad(layout))
    ensures ParseBlock(lines, i, least) == Parsed(Meant(layout), NextLine(lines, i + |Lines(layout)|))
    decreases layout, 2
  {
    hide ProperItem, ProperEntry, LinesOfItems, LinesOfEntries, BlankLine, CountIndent, ItemLine, Has, Ends, NextLine, ParseEntries, ParseItems,
      EntriesMeant, ItemsMeant;
    var n := Pad(layout);
    if layout.MapOf? {
      FirstEntry(lines, i, layout.entries, n);
      EntriesRead(lines, i, layout.entries, n, []);
      EntriesSkip(lines, i, n, []);
      assert [] + EntriesMeant(layout.entries) == EntriesMeant(layout.entries);
    } else {
      FirstItem(lines, i, layout.items, n);
      ItemsRead(lines, i, layout.items, n, []);
      ItemsSkip(lines, i, n, []);
      assert [] + ItemsMeant(layout.items) == ItemsMeant(layout.items);
    }
  }

  lemma FirstEntry(lines: seq<string>, i: nat, entries: seq<EntryOf>, n: nat)
    requires entries != [] && ProperEntry(entries[0], n) && entries[0].pad == n && Has(lines, i, LinesOfEntries(entries))
    ensures var j := NextLine(lines, i);
            i <= |lines| && j < |lines| && CountIndent(lines[j]) == n && !ItemLine(lines[j])
  {
    hide ProperSlot, ProperKey, BlankLine, CountIndent, ItemLine, Has, SlotLines, LineOfEntry;
    var e := entries[0];
    SeesEntry(e, n);
    HasConcat(lines, i, LinesOfEntry(e), LinesOfEntries(entries[1..]));
    LineBehind(lines, i, e.skipped, LineOfEntry(e), SlotLines(e.slot));
  }

  lemma FirstItem(lines: seq<string>, i: nat, items: seq<ItemOf>, n: nat)
    requires items != [] && ProperItem(items[0], n) && items[0].pad == n && Has(lines, i, LinesOfItems(items))
    ensures var j := NextLine(lines, i);
            i <= |lines| && j < |lines| && CountIndent(lines[j]) == n && ItemLine(lines[j])
  {
    hide ProperSlot, ProperItem, BlankLine, CountIndent, ItemLine, Has, SlotLines, LineOfItem;
    var item := items[0];
    ItemParts(item, n);
    SeesItem(item, n);
    HasConcat(lines, i, LinesOfItem(item), LinesOfItems(items[1..]));
    LineBehind(lines, i, item.skipped, LineOfItem(item), SlotLines(item.slot));
  }

  /** A text of which the lines lay out a tree is read as that tree, whatever less indented lines or blank ones stand
      behind them. */
  lemma LayoutReads(text: string, layout: Layout, rest: seq<string>)
    requires Proper(layout) && GetLines(text) == Lines(layout) + rest && Ends(rest, 0, Pad(layout))
    ensures ParseYaml(text) == Meant(layout)
  {
    hide Proper, GetLines, Lines, Meant, ParseBlock, NextLine, CountIndent;
    var lines := GetLines(text);
    HasAll(Lines(layout), rest);
    RestEnds(Lines(layout), rest, 0, Pad(layout));
    BlockRead(lines, 0, layout, 0);
  }

  lemma HasAll(a: seq<string>, rest: seq<string>)
    ensures Has(a + rest, 0, a)
  {
  }

  lemma {:induction false} NextBehind(a: seq<string>, rest: seq<string>, i: nat)
    requires i <= |rest|
    ensures NextLine(a + rest, |a| + i) == |a| + NextLine(rest, i)
    decreases |rest| - i
  {
    hide BlankLine;
    if i < |rest| && BlankLine(rest[i]) { NextBehind(a, rest, i + 1); }
  }

  lemma RestEnds(a: seq<string>, rest: seq<string>, i: nat, n: nat)
    requires Ends(rest, i, n)
    ensures Ends(a + rest, |a| + i, n)
  {
    hide BlankLine, CountIndent, NextLine;
    NextBehind(a, rest, i);
  }
}

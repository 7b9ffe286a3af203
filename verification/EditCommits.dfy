/** Structured edits carried through a session to the file: staged as whole-file changes
    (structure_adapters.cpp: stage_whole_file_change), committed, and read again. */
module EditCommits {
  import opened Text
  import opened TextLines
  import opened FlatRecord
  import opened ChangeRoundTrip
  import opened JsonText
  import opened JsonRoundTrip
  import opened JsonPaths
  import opened Encoding
  import opened PatchStore
  import opened Undo
  import opened Sessions
  import opened SessionRuns
  import opened StagingOrder
  import opened Spared
  import opened StagedEdits

  // ----- A printed tree in a file with other line ends -----------------------------------

  predicate NoEnds(s: string) { '\n' !in s && '\r' !in s }

  /** `text` is `s` with every newline behind a carriage return, and `s` has none. */
  ghost predicate LaidAs(s: string, text: string) { '\r' !in s && WithCR(s) == text }

  lemma LaidConcat(a: string, ta: string, b: string, tb: string)
    requires LaidAs(a, ta) && LaidAs(b, tb)
    ensures LaidAs(a + b, ta + tb)
  {
    WithCRConcat(a, b);
  }

  lemma LaidPlain(s: string)
    requires NoEnds(s)
    ensures LaidAs(s, s)
  {
    NoNewlineLaid(s);
  }

  lemma LaidNewline()
    ensures LaidAs("\n", "\r\n")
  {
    WithCRNil();
    WithCRSnoc([], '\n');
    assert [] + ['\n'] == "\n";
  }

  lemma {:induction false} EscapedNoEnds(s: string)
    ensures NoEnds(Escaped(s))
  {
    if s != [] {
      EscapedNoEnds(s[..|s| - 1]);
      CharNoEnds(s[|s| - 1]);
    }
  }

  lemma CharNoEnds(c: char)
    ensures NoEnds(EscapeChar(c))
  {
  }

  lemma ValueNoEnds(s: string)
    ensures NoEnds(StringValue(s))
  {
    hide Escaped;
    EscapedNoEnds(s);
  }

  lemma IndentNoEnds(depth: nat)
    ensures NoEnds(Indent(depth))
  {
  }

  lemma WordNoEnds(node: Json)
    requires WellFormed(node) && !node.Array? && !node.Object?
    ensures NoEnds(PrintedWith(node, 0, [])) && forall d, nl :: PrintedWith(node, d, nl) == PrintedWith(node, 0, [])
  {
    if node.Str? { ValueNoEnds(node.text); }
  }

  lemma LaidPieces(open: char, body: string, laid: string, depth: nat, close: char)
    requires LaidAs(body, laid) && NoEnds([open]) && NoEnds([close])
    ensures LaidAs([open] + "\n" + body + ("\n" + Indent(depth)) + [close],
                   [open] + "\r\n" + laid + ("\r\n" + Indent(depth)) + [close])
  {
    hide LaidAs, Indent;
    LaidNewline();
    LaidPlain([open]);
    LaidPlain([close]);
    IndentNoEnds(depth);
    LaidPlain(Indent(depth));
    LaidConcat([open], [open], "\n", "\r\n");
    LaidConcat([open] + "\n", [open] + "\r\n", body, laid);
    LaidConcat("\n", "\r\n", Indent(depth), Indent(depth));
    LaidConcat([open] + "\n" + body, [open] + "\r\n" + laid, "\n" + Indent(depth), "\r\n" + Indent(depth));
    LaidConcat([open] + "\n" + body + ("\n" + Indent(depth)), [open] + "\r\n" + laid + ("\r\n" + Indent(depth)), [close], [close]);
  }

  lemma LaidBehind(front: string, first: string, laidFirst: string, more: bool, rest: string, laidRest: string)
    requires NoEnds(front) && LaidAs(first, laidFirst) && LaidAs(rest, laidRest)
    ensures LaidAs(front + first + (if more then "," + "\n" + rest else []),
                   front + laidFirst + (if more then "," + "\r\n" + laidRest else []))
  {
    hide LaidAs;
    LaidPlain(front);
    LaidConcat(front, front, first, laidFirst);
    if more {
      LaidNewline();
      LaidPlain(",");
      LaidConcat(",", ",", "\n", "\r\n");
      LaidConcat("," + "\n", "," + "\r\n", rest, laidRest);
      LaidConcat(front + first, front + laidFirst, "," + "\n" + rest, "," + "\r\n" + laidRest);
    } else {
      assert front + first + [] == front + first && front + laidFirst + [] == front + laidFirst;
    }
  }

  lemma {:induction false} PrintedLaid(node: Json, depth: nat)
    requires WellFormed(node)
    ensures LaidAs(PrintedWith(node, depth, "\n"), PrintedWith(node, depth, "\r\n"))
    decreases node, 1
  {
    hide LaidAs, NoEnds, Indent;
    match node
    case Array(items) =>
      WellFormedParts(node);
      ItemsLaid(items, depth + 1);
      BracketsPlain();
      LaidPieces('[', PrintedItems(items, depth + 1, "\n"), PrintedItems(items, depth + 1, "\r\n"), depth, ']');
    case Object(members) =>
      WellFormedParts(node);
      MembersLaid(members, depth + 1);
      BracketsPlain();
      LaidPieces('{', PrintedMembers(members, depth + 1, "\n"), PrintedMembers(members, depth + 1, "\r\n"), depth, '}');
    case _ =>
      WordNoEnds(node);
      LaidPlain(PrintedWith(node, 0, []));
  }

  lemma BracketsPlain()
    ensures NoEnds("[") && NoEnds("]") && NoEnds("{") && NoEnds("}")
    ensures LaidAs("[]", "[]") && LaidAs("{}", "{}")
  {
    LaidPlain("[]");
    LaidPlain("{}");
  }

  lemma LaidNothing()
    ensures LaidAs([], [])
  {
    LaidPlain([]);
  }

  lemma {:induction false} ItemsLaid(items: seq<Json>, depth: nat)
    requires forall i :: 0 <= i < |items| ==> WellFormed(items[i])
    ensures LaidAs(PrintedItems(items, depth, "\n"), PrintedItems(items, depth, "\r\n"))
    decreases items, 0
  {
    hide LaidAs, NoEnds, Indent, PrintedWith;
    LaidNothing();
    if items != [] {
      PrintedLaid(items[0], depth);
      ItemsLaid(items[1..], depth);
      IndentNoEnds(depth);
      LaidBehind(Indent(depth), PrintedWith(items[0], depth, "\n"), PrintedWith(items[0], depth, "\r\n"), |items| > 1,
                 PrintedItems(items[1..], depth, "\n"), PrintedItems(items[1..], depth, "\r\n"));
    }
  }

  lemma KeyPlain(key: string, depth: nat)
    ensures NoEnds(Indent(depth) + StringValue(key) + ": ")
  {
    hide Indent, StringValue;
    IndentNoEnds(depth);
    ValueNoEnds(key);
  }

  lemma {:induction false} MembersLaid(members: seq<Member>, depth: nat)
    requires forall i :: 0 <= i < |members| ==> WellFormed(members[i].value)
    ensures LaidAs(PrintedMembers(members, depth, "\n"), PrintedMembers(members, depth, "\r\n"))
    decreases members, 0
  {
    hide LaidAs, NoEnds, Indent, StringValue, PrintedWith;
    LaidNothing();
    if members != [] {
      PrintedLaid(members[0].value, depth);
      MembersLaid(members[1..], depth);
      KeyPlain(members[0].key, depth);
      LaidBehind(Indent(depth) + StringValue(members[0].key) + ": ",
                 PrintedWith(members[0].value, depth, "\n"), PrintedWith(members[0].value, depth, "\r\n"), |members| > 1,
                 PrintedMembers(members[1..], depth, "\n"), PrintedMembers(members[1..], depth, "\r\n"));
    }
  }

  /** A JSON file in either layout parses as the tree that was printed. */
  lemma LaidParses(node: Json, eol: Eol)
    requires WellFormed(node)
    ensures var body := Encoding.Laid(JsonRoundTrip.FileText(node), eol);
            ParseJson(body) == Some(node) && FileMark(body) == ""
  {
    hide PrintedWith, ParseJson, WellFormed, StripCR, WithCR;
    var text, nl := JsonRoundTrip.FileText(node), if eol == Crlf then "\r\n" else "\n";
    PrintedLaid(node, 0);
    LaidNewline();
    LaidConcat(PrintedWith(node, 0, "\n"), PrintedWith(node, 0, "\r\n"), "\n", "\r\n");
    StripCROfClean(text);
    assert Encoding.Laid(text, eol) == PrintedWith(node, 0, nl) + nl;
    PrintedWithParses(node, nl);
    PrintedStart(node, 0, nl);
    NotMarked(Encoding.Laid(text, eol));
  }

  lemma NotMarked(body: string)
    requires body != [] && OpensValue(body[0])
    ensures FileMark(body) == ""
  {
    assert UTF8_MARK[0] == '\U{EF}' && UTF16_MARK[0] == '\U{FF}';
  }

  lemma WrittenJsonReads(node: Json, format: Format)
    requires WellFormed(node) && '\0' !in JsonRoundTrip.FileText(node)
    ensures var d := Decode(Encode(JsonRoundTrip.FileText(node), format)); d.Some? && ParseJson(d.value.text) == Some(node)
  {
    hide Encoding.Laid, FileMark, EolOf, ParseJson, PrintedWith, WellFormed;
    var text := JsonRoundTrip.FileText(node);
    LaidParses(node, format.eol);
    LaidMembers(text, format.eol);
    var body := Encoding.Laid(text, format.eol);
    if format.bom {
      FileMarkOfMarked(format, body);
      assert Encode(text, format)[|Mark(format)|..] == body;
    } else {
      NoMark(format);
      assert Encode(text, format) == body && body[0..] == body;
    }
  }

  // ----- From the edit to the file -------------------------------------------------------

  /** A text that starts with a byte order mark is refused by every JSON edit. */
  lemma MarkedRefused(edit: Edit, current: string, keyPath: string, newValue: string)
    requires FileMark(current) != ""
    ensures EditText(edit, current, keyPath, newValue).None?
  {
    hide ParseJson, At;
    AtSlice(current, 0, UTF8_MARK);
    AtSlice(current, 0, UTF16_MARK);
    assert current[0] == UTF8_MARK[0] || current[0] == UTF16_MARK[0];
    OddStart(current);
  }

  lemma OddStart(text: string)
    requires text != [] && (text[0] == '\U{EF}' || text[0] == '\U{FF}')
    ensures ParseJson(text).None?
  {
    hide ParseObject, ParseArray, ParseString, At;
    NotAtStart(text, "true");
    NotAtStart(text, "false");
    NotAtStart(text, "null");
  }

  lemma NotAtStart(text: string, s: string)
    requires s != [] && text != [] && text[0] != s[0]
    ensures !At(text, 0, s)
  {
  }

  /** A JSON edit, committed.  Of any session whose last staged change of a path is the text of a JSON
      edit, a commit that goes through leaves a file that decodes to a JSON text in which the edited path
      finds the new value (or the list with the new item last), and every path beside it what it found in
      the text the edit started from, whatever line ends and byte order mark the file has by then. */
  lemma JsonEditCommitted(cfg: Config, d: Disk, s: Sess, path: string,
                          edit: Edit, current: string, keyPath: string, newValue: string, q: seq<string>)
    requires Sound(d) && DoCommit(cfg, d, s).2.Some? && EditText(edit, current, keyPath, newValue).Some?
    requires LastRewrites(s, path, EditText(edit, current, keyPath, newValue).value)
    ensures var bytes := BytesAt(DoCommit(cfg, d, s).0.files, path);
            bytes.Some? && Decode(bytes.value).Some? &&
            JsonEdited(edit, current, keyPath, newValue, q, Decode(bytes.value).value.text)
  {
    hide DoCommit, Sound, BytesAt, ReadState, Encode, Decode, EditText, JsonEdited, LastRewrites, SameEdits;
    SameEntries(s, s, path);
    RewriteCommitted(cfg, s, World(d, s), path, EditText(edit, current, keyPath, newValue).value);
    EditReads(edit, current, keyPath, newValue, q, ReadState(cfg, d.files, path).value.format);
  }

  /** What a JSON edit promises of a text. */
  ghost predicate JsonEdited(edit: Edit, current: string, keyPath: string, newValue: string, q: seq<string>, text: string)
    requires EditText(edit, current, keyPath, newValue).Some?
  {
    var p := SplitPath(keyPath);
    var root, value := ParseJson(current).value, ParseJson(newValue).value;
    var next := ParseJson(text);
    next.Some? &&
    FindPath(next.value, p) == Some(if edit.Append? then WithItem(FindPath(root, p), value) else value) &&
    (!(p <= q) && !(q <= p) ==> FindPath(next.value, q) == FindPath(root, q))
  }

  lemma EditReads(edit: Edit, current: string, keyPath: string, newValue: string, q: seq<string>, format: Format)
    requires EditText(edit, current, keyPath, newValue).Some?
    requires '\0' !in EditText(edit, current, keyPath, newValue).value
    ensures var d := Decode(Encode(EditText(edit, current, keyPath, newValue).value, format));
            d.Some? && JsonEdited(edit, current, keyPath, newValue, q, d.value.text)
  {
    hide Decode, Encode, ParseValue, FindPath, Printed, WellFormed, EditTree, SplitPath;
    EditedTextLookups(edit, current, keyPath, newValue, q);
    var root, value := ParseJson(current).value, ParseJson(newValue).value;
    ValueWellFormed(current, 0);
    ValueWellFormed(newValue, 0);
    EditTreeWellFormed(edit, root, SplitPath(keyPath), value);
    var next := EditTree(edit, root, SplitPath(keyPath), value).value;
    PrintThenParse(next);
    WrittenJsonReads(next, format);
  }

  /** The text of a JSON edit on what the session has of a path. */
  ghost function EditOf(cfg: Config, d: Disk, s: Sess, path: string, edit: Edit, keyPath: string, newValue: string): Option<string>
  {
    match Materialized(cfg, d.files, s, path)
    case None => None
    case Some(current) => EditText(edit, current, keyPath, newValue)
  }

  /** A JSON edit from end to end: made on what the session has of the file, added behind its other
      changes, and committed after any calls that leave the file alone. */
  lemma JsonEditFollowed(cfg: Config, id: string, d: Disk, s: Sess, adds: seq<Addition>, calls: seq<Call>,
                         edit: Edit, keyPath: string, newValue: string, q: seq<string>)
    requires Sound(d) && Active(s) && s.entries == [] && 0 < |adds| <= 9999 && SizesFit(adds[|adds| - 1].input)
    requires var a := adds[|adds| - 1].input;
             a.operation == "replace_content" &&
             EditOf(cfg, d, AddAll(id, s, adds[..|adds| - 1]), a.path, edit, keyPath, newValue) == Some(a.newContent)
    requires SparesAll(cfg, id, World(d, AddAll(id, s, adds)), calls, adds[|adds| - 1].input.path)
    requires var w := Run(cfg, id, World(d, AddAll(id, s, adds)), calls); DoCommit(cfg, w.disk, w.sess).2.Some?
    ensures var path, w := adds[|adds| - 1].input.path, Run(cfg, id, World(d, AddAll(id, s, adds)), calls);
            var current := Materialized(cfg, d.files, AddAll(id, s, adds[..|adds| - 1]), path);
            var bytes := BytesAt(DoCommit(cfg, w.disk, w.sess).0.files, path);
            current.Some? && FileMark(current.value) == "" && bytes.Some? && Decode(bytes.value).Some? &&
            EditText(edit, current.value, keyPath, newValue).Some? &&
            JsonEdited(edit, current.value, keyPath, newValue, q, Decode(bytes.value).value.text)
  {
    hide AddAll, DoCommit, Sound, BytesAt, ReadState, Encode, Decode, EditText, JsonEdited, Materialized, Run, SparesAll, SizesFit, Active,
      FileMark;
    var path := adds[|adds| - 1].input.path;
    var current := Materialized(cfg, d.files, AddAll(id, s, adds[..|adds| - 1]), path).value;
    StagedIsCommitted(cfg, id, d, s, adds, calls);
    if FileMark(current) != "" { MarkedRefused(edit, current, keyPath, newValue); }
    EditReads(edit, current, keyPath, newValue, q, ReadState(cfg, d.files, path).value.format);
  }
}

/** The flat record codec of protocol.cpp: values are written escaped, and fields are found by
    scanning the whole text for a quoted key followed by a colon. */
module FlatRecord {
  import opened Text

  // ----- Escaping ------------------------------------------------------------------------

  function EscapeChar(c: char): (e: string)
    ensures 1 <= |e| <= 2
  {
    match c
    case '\\' => "\\\\"
    case '"' => "\\\""
    case '\n' => "\\n"
    case '\r' => "\\r"
    case '\t' => "\\t"
    case _ => [c]
  }

  function Escaped(s: string): string
  {
    if s == [] then [] else Escaped(s[..|s| - 1]) + EscapeChar(s[|s| - 1])
  }

  /** json_escape */
  method JsonEscape(value: string) returns (out: string)
    ensures out == Escaped(value)
  {
    out := [];
    for i := 0 to |value|
      invariant out == Escaped(value[..i])
    {
      assert value[..i + 1][..i] == value[..i];
      out := out + EscapeChar(value[i]);
    }
    assert value[..|value|] == value;
  }

  lemma {:induction false} EscapedConcat(a: string, b: string)
    ensures Escaped(a + b) == Escaped(a) + Escaped(b)
    decreases |b|
  {
    hide EscapeChar;
    if b == [] {
      assert a + b == a;
    } else {
      assert (a + b)[..|a + b| - 1] == a + b[..|b| - 1];
      EscapedConcat(a, b[..|b| - 1]);
    }
  }

  lemma EscapedFirst(s: string)
    requires s != []
    ensures Escaped(s) == EscapeChar(s[0]) + Escaped(s[1..])
  {
    hide EscapeChar;
    assert s == [s[0]] + s[1..];
    EscapedConcat([s[0]], s[1..]);
    assert [s[0]][..0] == [];
  }

  /** Every quote of an escaped value stands behind a backslash. */
  lemma {:induction false} EscapedQuotes(s: string)
    ensures forall i :: 0 <= i < |Escaped(s)| && Escaped(s)[i] == '"' ==> i > 0 && Escaped(s)[i - 1] == '\\'
  {
    if s != [] {
      EscapedQuotes(s[..|s| - 1]);
    }
  }

  // ----- Reading an escaped string back --------------------------------------------------

  /** What a reader turns the character after a backslash into: json_get_string ... */
  function RecordUnescape(c: char): char
  {
    match c
    case 'n' => '\n'
    case 'r' => '\r'
    case 't' => '\t'
    case _ => c
  }

  /** ... and JsonParser::parse_string_raw, which also knows \b and \f. */
  function JsonUnescape(c: char): char
  {
    match c
    case 'b' => '\U{8}'
    case 'f' => '\U{C}'
    case _ => RecordUnescape(c)
  }

  lemma RecordUndoes()
    ensures Undoes(RecordUnescape) && Undoes(JsonUnescape)
  {
  }

  ghost predicate Undoes(u: char -> char)
  {
    u('\\') == '\\' && u('"') == '"' && u('n') == '\n' && u('r') == '\r' && u('t') == '\t'
  }

  /** Reads from `i` up to the first quote that is not escaped, behind what is read already;
      None when the text ends first. */
  function ReadString(text: string, i: nat, out: string, u: char -> char): (r: Option<(string, nat)>)
    requires i <= |text|
    ensures r.Some? ==> i < r.value.1 <= |text|
    decreases |text| - i
  {
    if i == |text| then None
    else if text[i] == '"' then Some((out, i + 1))
    else if text[i] == '\\' then
      if i + 1 == |text| then None
      else ReadString(text, i + 2, out + [u(text[i + 1])], u)
    else ReadString(text, i + 1, out + [text[i]], u)
  }

  lemma ReadEscapedChar(text: string, i: nat, out: string, c: char, u: char -> char)
    requires Undoes(u) && At(text, i, EscapeChar(c))
    ensures ReadString(text, i, out, u) == ReadString(text, i + |EscapeChar(c)|, out + [c], u)
  {
    assert text[i] == EscapeChar(c)[0];
    if |EscapeChar(c)| == 2 {
      assert text[i + 1] == EscapeChar(c)[1];
    }
  }

  /** Reading an escaped value up to its closing quote gives the value back. */
  lemma {:induction false} ReadEscaped(text: string, i: nat, out: string, s: string, u: char -> char)
    requires Undoes(u) && At(text, i, Escaped(s)) && At(text, i + |Escaped(s)|, "\"")
    ensures ReadString(text, i, out, u) == Some((out + s, i + |Escaped(s)| + 1))
    decreases |s|
  {
    hide At, EscapeChar;
    if s == [] {
      AtSingle(text, i, '"');
      assert out + s == out;
    } else {
      var e := EscapeChar(s[0]);
      EscapedFirst(s);
      AtConcat(text, i, e, Escaped(s[1..]));
      ReadEscapedChar(text, i, out, s[0], u);
      ReadEscaped(text, i + |e|, out + [s[0]], s[1..], u);
      assert out + [s[0]] + s[1..] == out + s;
    }
  }

  /** Reading runs off the end when the text stops inside an escaped value. */
  lemma {:induction false} ReadUnterminated(text: string, i: nat, out: string, s: string, n: nat, u: char -> char)
    requires Undoes(u) && n <= |Escaped(s)| && At(text, i, Escaped(s)[..n]) && |text| == i + n
    ensures ReadString(text, i, out, u) == None
    decreases |s|
  {
    hide At, EscapeChar;
    if n > 0 {
      var e := EscapeChar(s[0]);
      EscapedFirst(s);
      if |e| <= n {
        assert Escaped(s)[..n] == e + Escaped(s[1..])[..n - |e|];
        AtConcat(text, i, e, Escaped(s[1..])[..n - |e|]);
        ReadEscapedChar(text, i, out, s[0], u);
        ReadUnterminated(text, i + |e|, out + [s[0]], s[1..], n - |e|, u);
      } else {
        assert Escaped(s)[..n] == e[..1];
        HalfEscape(text, i, out, s[0], u);
      }
    }
  }

  lemma HalfEscape(text: string, i: nat, out: string, c: char, u: char -> char)
    requires |EscapeChar(c)| > 1 && |text| == i + 1 && At(text, i, EscapeChar(c)[..1])
    ensures ReadString(text, i, out, u) == None
  {
    assert text[i] == EscapeChar(c)[..1][0];
  }

  // ----- Finding a key -------------------------------------------------------------------

  function Quoted(key: string): string { "\"" + key + "\"" }

  /** A quoted key at `p` that is followed by a colon, blanks aside. */
  predicate KeyAt(text: string, key: string, p: nat)
  {
    At(text, p, Quoted(key)) &&
    var i := SkipSpace(text, p + |Quoted(key)|);
    i < |text| && text[i] == ':'
  }

  /** Where the value of a key found at `p` begins. */
  function ValueAfter(text: string, key: string, p: nat): (i: nat)
    requires KeyAt(text, key, p)
    ensures i <= |text|
  {
    SkipSpace(text, SkipSpace(text, p + |Quoted(key)|) + 1)
  }

  /** find_json_value_start: a quoted key without a colon is skipped whole. */
  function ScanFrom(text: string, key: string, from: nat): (r: Option<nat>)
    ensures r.Some? ==> r.value <= |text|
    decreases |text| - from
  {
    match Find(text, Quoted(key), from)
    case None => None
    case Some(p) =>
      if KeyAt(text, key, p) then Some(ValueAfter(text, key, p))
      else ScanFrom(text, key, p + |Quoted(key)|)
  }

  lemma ScanStep(text: string, key: string, from: nat)
    ensures match Find(text, Quoted(key), from)
            case None => ScanFrom(text, key, from) == None
            case Some(p) => ScanFrom(text, key, from) ==
                            if KeyAt(text, key, p) then Some(ValueAfter(text, key, p))
                            else ScanFrom(text, key, p + |Quoted(key)|)
  {
  }

  method SkipBlanks(text: string, start: nat) returns (i: nat)
    requires start <= |text|
    ensures i == SkipSpace(text, start)
  {
    i := start;
    while i < |text| && IsSpace(text[i])
      invariant start <= i <= |text|
      invariant SkipSpace(text, start) == SkipSpace(text, i)
    {
      i := i + 1;
    }
  }

  method FindJsonValueStart(text: string, key: string) returns (r: Option<nat>)
    ensures r == ScanFrom(text, key, 0)
  {
    hide ScanFrom, At;
    var needle := Quoted(key);
    var pos := Find(text, needle, 0);
    ghost var from := 0;
    while pos.Some?
      invariant pos == Find(text, needle, from)
      invariant ScanFrom(text, key, 0) == ScanFrom(text, key, from)
      decreases |text| - from
    {
      ScanStep(text, key, from);
      var i := SkipBlanks(text, pos.value + |needle|);
      from := pos.value + |needle|;
      if i >= |text| || text[i] != ':' {
        pos := Find(text, needle, pos.value + |needle|);
        continue;
      }
      i := SkipBlanks(text, i + 1);
      return Some(i);
    }
    ScanStep(text, key, from);
    return None;
  }

  function GetString(text: string, key: string): string
  {
    match ScanFrom(text, key, 0)
    case None => ""
    case Some(start) =>
      if start >= |text| || text[start] != '"' then ""
      else match ReadString(text, start + 1, [], RecordUnescape)
           case None => ""
           case Some((value, _)) => value
  }

  /** json_get_string: one pass with an `escaping` flag. */
  method JsonGetString(text: string, key: string) returns (r: string)
    ensures r == GetString(text, key)
  {
    var start := FindJsonValueStart(text, key);
    if start.None? || start.value >= |text| || text[start.value] != '"' { return ""; }
    var out := "";
    var escaping := false;
    var i := start.value + 1;
    ghost var whole := ReadString(text, i, [], RecordUnescape);
    while i < |text|
      invariant start.value + 1 <= i <= |text|
      invariant escaping ==> start.value + 1 < i && text[i - 1] == '\\'
      invariant whole == ReadString(text, if escaping then i - 1 else i, out, RecordUnescape)
    {
      var c := text[i];
      if escaping {
        out := out + [RecordUnescape(c)];
        escaping := false;
        i := i + 1;
        continue;
      }
      if c == '\\' {
        escaping := true;
        i := i + 1;
        continue;
      }
      if c == '"' { return out; }
      out := out + [c];
      i := i + 1;
    }
    return "";
  }

  // ----- Rendering, and why the scan lands on the true key -------------------------------

  /** One field: its key and the text of its value. */
  datatype Field = Field(key: string, raw: string)

  function Render(f: Field): string { Quoted(f.key) + ":" + f.raw }

  /** Every field followed by a comma. */
  function RenderEach(fs: seq<Field>): string
  {
    if fs == [] then [] else RenderEach(fs[..|fs| - 1]) + (Render(fs[|fs| - 1]) + ",")
  }

  function StringValue(s: string): string { "\"" + Escaped(s) + "\"" }

  predicate KeyChar(c: char) { 'a' <= c <= 'z' || c == '_' }

  predicate IsKey(key: string)
  {
    key != [] && forall i :: 0 <= i < |key| ==> KeyChar(key[i])
  }

  /** A value the scan can pass over: one escaped string, or text without any quote. */
  ghost predicate Plain(raw: string)
  {
    (raw != [] && forall i :: 0 <= i < |raw| ==> raw[i] != '"') ||
    exists s :: raw == StringValue(s)
  }

  ghost predicate PlainFields(fs: seq<Field>)
  {
    forall i :: 0 <= i < |fs| ==> IsKey(fs[i].key) && Plain(fs[i].raw)
  }

  /** What it means to see a key at `p`: two quotes with the key between them, then a colon. */
  lemma KeyAtMeans(text: string, key: string, p: nat)
    requires IsKey(key) && KeyAt(text, key, p)
    ensures var q := p + |key| + 1;
            q < |text| && text[p] == '"' && text[q] == '"' &&
            KeyChar(text[p + 1]) && KeyChar(text[q - 1]) &&
            (forall k :: p < k < q ==> KeyChar(text[k]) && text[k] == key[k - p - 1]) &&
            q + 1 < |text| && (IsSpace(text[q + 1]) || text[q + 1] == ':')
  {
    AtChars(text, p, Quoted(key));
  }

  /** Two keys that both stand quoted at the same position are the same key. */
  lemma KeyEndsAt(text: string, a: nat, k1: string, k2: string)
    requires IsKey(k1) && IsKey(k2) && At(text, a, Quoted(k1)) && At(text, a, Quoted(k2))
    ensures k1 == k2
  {
    AtChars(text, a, Quoted(k1));
    AtChars(text, a, Quoted(k2));
    assert text[a + |k1| + 1] == '"' && text[a + |k2| + 1] == '"';
    assert forall k :: 0 <= k < |k1| ==> k1[k] == text[a + 1 + k] == k2[k];
  }

  /** No key followed by a colon starts inside a value (or at the comma behind it). */
  lemma NoKeyInValue(text: string, v: nat, raw: string, key: string, p: nat)
    requires Plain(raw) && IsKey(key) && At(text, v, raw + ",")
    requires v <= p <= v + |raw|
    ensures !KeyAt(text, key, p)
  {
    AtChars(text, v, raw + ",");
    assert text[v + |raw|] == ',';
    if s :| raw == StringValue(s) {
      if p < v + |raw| { NoKeyInString(text, v, s, key, p); }
    } else {
      assert p < v + |raw| ==> text[p] == raw[p - v];
    }
  }

  lemma NoKeyInString(text: string, v: nat, s: string, key: string, p: nat)
    requires IsKey(key) && At(text, v, StringValue(s) + ",")
    requires v <= p < v + |StringValue(s)|
    ensures !KeyAt(text, key, p)
  {
    var raw := StringValue(s);
    var e := v + |raw|;
    AtChars(text, v, raw + ",");
    assert text[e] == ',' && text[e - 1] == '"';
    EscapedQuotes(s);
    assert forall j :: v < j < e - 1 ==> text[j] == Escaped(s)[j - v - 1];
    assert forall j :: v < j < e - 1 && text[j] == '"' ==> v < j - 1 && text[j - 1] == '\\';
    if KeyAt(text, key, p) {
      KeyAtMeans(text, key, p);
    }
  }

  /** Inside one rendered field and its comma a key can only be seen at the field's own start. */
  lemma NoStrayKey(text: string, a: nat, f: Field, key: string, p: nat)
    requires IsKey(f.key) && Plain(f.raw) && IsKey(key)
    requires At(text, a, Render(f) + ",")
    requires a <= p <= a + |Render(f)| && KeyAt(text, key, p)
    ensures p == a && key == f.key
  {
    hide At, KeyAt, IsKey, Plain;
    var v := a + |f.key| + 3; // where the value begins
    assert Render(f) + "," == Quoted(f.key) + ":" + (f.raw + ",");
    AtConcat3(text, a, Quoted(f.key), ":", f.raw + ",");
    if p == a {
      KeyEndsAt(text, a, f.key, key) by { assert At(text, a, Quoted(key)) by { KeyAtQuoted(text, key, p); } }
    } else if p < v {
      NoKeyInKey(text, a, f.key, key, p);
    } else {
      NoKeyInValue(text, v, f.raw, key, p);
    }
  }

  lemma KeyAtQuoted(text: string, key: string, p: nat)
    requires KeyAt(text, key, p)
    ensures At(text, p, Quoted(key))
  {
  }

  lemma NoKeyInKey(text: string, a: nat, k: string, key: string, p: nat)
    requires IsKey(k) && IsKey(key) && At(text, a, Quoted(k)) && At(text, a + |k| + 2, ":")
    requires a < p < a + |k| + 3
    ensures !KeyAt(text, key, p)
  {
    AtChars(text, a, Quoted(k));
    AtSingle(text, a + |k| + 2, ':');
    assert forall j :: a < j < a + |k| + 1 ==> text[j] != '"';
    if KeyAt(text, key, p) { KeyAtMeans(text, key, p); }
  }

  ghost predicate KeyIn(key: string, fs: seq<Field>)
  {
    exists i :: 0 <= i < |fs| && fs[i].key == key
  }

  lemma {:induction false} NoKeyAmong(text: string, a: nat, fs: seq<Field>, key: string, p: nat)
    requires PlainFields(fs) && IsKey(key) && !KeyIn(key, fs)
    requires At(text, a, RenderEach(fs)) && a <= p < a + |RenderEach(fs)|
    ensures !KeyAt(text, key, p)
    decreases |fs|
  {
    hide At, KeyAt, IsKey, Plain, Render;
    var front, last := fs[..|fs| - 1], fs[|fs| - 1];
    AtConcat(text, a, RenderEach(front), Render(last) + ",");
    if p < a + |RenderEach(front)| {
      NoKeyAmong(text, a, front, key, p);
    } else if KeyAt(text, key, p) {
      NoStrayKey(text, a + |RenderEach(front)|, last, key, p);
    }
  }

  /** A sighting that starts before another quote ends at or before it. */
  lemma SightingsApart(text: string, key: string, p: nat, t: nat)
    requires IsKey(key) && At(text, p, Quoted(key)) && p < t < |text| && text[t] == '"'
    requires !KeyChar(text[t - 1]) && text[t - 1] != '"'
    ensures p + |Quoted(key)| <= t
  {
    AtChars(text, p, Quoted(key));
    assert text[p + |key|] == Quoted(key)[|key|];
  }

  /** The scan skips every false sighting and stops at the first true one. */
  lemma {:induction false} ScanReaches(text: string, key: string, from: nat, t: nat)
    requires IsKey(key) && from <= t && 0 < t && KeyAt(text, key, t)
    requires t < |text| && text[t] == '"' && !KeyChar(text[t - 1]) && text[t - 1] != '"'
    requires forall p :: from <= p < t ==> !KeyAt(text, key, p)
    ensures ScanFrom(text, key, from) == Some(ValueAfter(text, key, t))
    decreases t - from
  {
    hide At, IsKey, KeyChar;
    var found := Find(text, Quoted(key), from);
    assert At(text, t, Quoted(key));
    FindSkips(text, Quoted(key), from, t);
    if found.value < t {
      SightingsApart(text, key, found.value, t);
      ScanReaches(text, key, found.value + |Quoted(key)|, t);
    }
  }

  /** A key, its colon and a value that does not begin blank are a sighting with that value. */
  lemma RenderedKey(text: string, t: nat, key: string, raw: string)
    requires At(text, t, Quoted(key)) && At(text, t + |key| + 2, ":") && At(text, t + |key| + 3, raw)
    requires raw != [] && !IsSpace(raw[0])
    ensures KeyAt(text, key, t) && ValueAfter(text, key, t) == t + |key| + 3 && text[t] == '"'
  {
    var colon := t + |key| + 2;
    assert text[colon] == ':' && text[colon + 1] == raw[0] && text[t] == Quoted(key)[0];
    SkipSpaceUnique(text, colon, colon);
    SkipSpaceUnique(text, colon + 1, colon + 1);
  }

  lemma NoKeyAtBrace(text: string, key: string)
    requires IsKey(key) && At(text, 0, "{")
    ensures !KeyAt(text, key, 0)
  {
    if KeyAt(text, key, 0) { KeyAtMeans(text, key, 0); }
  }

  lemma NoKeyBefore(text: string, before: seq<Field>, key: string)
    requires PlainFields(before) && IsKey(key) && !KeyIn(key, before)
    requires At(text, 0, "{" + RenderEach(before))
    ensures forall p :: 0 <= p < 1 + |RenderEach(before)| ==> !KeyAt(text, key, p)
  {
    hide At, KeyAt, IsKey, PlainFields, KeyIn;
    AtConcat(text, 0, "{", RenderEach(before));
    forall p | 0 <= p < 1 + |RenderEach(before)| ensures !KeyAt(text, key, p) {
      if p == 0 { NoKeyAtBrace(text, key); } else { NoKeyAmong(text, 1, before, key, p); }
    }
  }

  /** In a rendered record the scan for a key lands on the value of that key's field, whatever
      the values of the fields before it contain. */
  lemma ScanFindsField(text: string, before: seq<Field>, f: Field)
    requires At(text, 0, "{" + RenderEach(before) + Render(f))
    requires PlainFields(before) && IsKey(f.key) && !KeyIn(f.key, before)
    requires f.raw != [] && !IsSpace(f.raw[0])
    ensures var v := 1 + |RenderEach(before)| + |f.key| + 3;
            ScanFrom(text, f.key, 0) == Some(v) && At(text, v, f.raw)
  {
    hide At, KeyAt, IsKey, PlainFields, KeyIn, ScanFrom;
    var t := 1 + |RenderEach(before)|;
    AtConcat(text, 0, "{" + RenderEach(before), Render(f));
    RenderEachEnd(text, before);
    NoKeyBefore(text, before, f.key);
    AtConcat3(text, t, Quoted(f.key), ":", f.raw);
    RenderedKey(text, t, f.key, f.raw);
    ScanReaches(text, f.key, 0, t);
  }

  lemma RenderEachEnd(text: string, before: seq<Field>)
    requires At(text, 0, "{" + RenderEach(before))
    ensures text[|RenderEach(before)|] == '{' || text[|RenderEach(before)|] == ','
  {
    assert text[|RenderEach(before)|] == ("{" + RenderEach(before))[|RenderEach(before)|];
  }

  lemma {:induction false} RenderEachConcat(fs: seq<Field>, gs: seq<Field>)
    ensures RenderEach(fs + gs) == RenderEach(fs) + RenderEach(gs)
    decreases |gs|
  {
    hide Render;
    if gs == [] {
      assert fs + gs == fs;
    } else {
      assert (fs + gs)[..|fs + gs| - 1] == fs + gs[..|gs| - 1];
      RenderEachConcat(fs, gs[..|gs| - 1]);
    }
  }

  lemma RenderEachSnoc(fs: seq<Field>, f: Field)
    ensures RenderEach(fs + [f]) == RenderEach(fs) + (Render(f) + ",")
  {
    hide Render;
    assert (fs + [f])[..|fs|] == fs;
  }

  lemma RenderEachParts(a: seq<Field>, f: Field, b: seq<Field>)
    ensures RenderEach(a + [f] + b) == RenderEach(a) + (Render(f) + ",") + RenderEach(b)
  {
    hide Render, RenderEach;
    RenderEachConcat(a + [f], b);
    RenderEachSnoc(a, f);
  }

  // ----- Typed getters -------------------------------------------------------------------

  const SIZE_LIMIT: nat := 0x1_0000_0000_0000_0000

  /** json_get_size_t_local: a number past 64 bits falls back, like the caught exception. */
  function GetSize(text: string, key: string, fallback: nat): nat
  {
    match ScanFrom(text, key, 0)
    case None => fallback
    case Some(start) =>
      if start >= |text| || !IsDigit(text[start]) then fallback
      else
        var value := DecimalValue(text[start..DigitsEnd(text, start)]);
        if value < SIZE_LIMIT then value else fallback
  }

  method JsonGetSize(text: string, key: string, fallback: nat) returns (r: nat)
    ensures r == GetSize(text, key, fallback)
  {
    var start := FindJsonValueStart(text, key);
    if start.None? || start.value >= |text| || !IsDigit(text[start.value]) { return fallback; }
    var end := start.value;
    while end < |text| && IsDigit(text[end])
      invariant start.value <= end <= |text|
      invariant DigitsEnd(text, start.value) == DigitsEnd(text, end)
    {
      end := end + 1;
    }
    var value := DecimalValue(text[start.value..end]);
    return if value < SIZE_LIMIT then value else fallback;
  }

  /** json_get_bool_local */
  function GetBool(text: string, key: string, fallback: bool): bool
  {
    match ScanFrom(text, key, 0)
    case None => fallback
    case Some(start) =>
      if At(text, start, "true") then true
      else if At(text, start, "false") then false
      else fallback
  }

  // ----- What the getters return on a rendered record ------------------------------------

  /** `text` renders the fields `fs` and goes on behind them. */
  ghost predicate Renders(text: string, fs: seq<Field>)
  {
    PlainFields(fs) && At(text, 0, "{" + RenderEach(fs)) &&
    (forall i, j :: 0 <= i < j < |fs| ==> fs[i].key != fs[j].key) &&
    forall i :: 0 <= i < |fs| ==> fs[i].raw != [] && !IsSpace(fs[i].raw[0])
  }

  lemma RenderedPrefix(text: string, fs: seq<Field>, i: nat)
    requires At(text, 0, "{" + RenderEach(fs)) && i < |fs|
    ensures At(text, 0, "{" + RenderEach(fs[..i]) + Render(fs[i]))
    ensures At(text, 1 + |RenderEach(fs[..i])| + |Render(fs[i])|, ",")
  {
    hide At, Render, RenderEach;
    RenderEachParts(fs[..i], fs[i], fs[i + 1..]);
    assert fs == fs[..i] + [fs[i]] + fs[i + 1..];
    var head := "{" + RenderEach(fs[..i]) + Render(fs[i]);
    assert "{" + RenderEach(fs) == head + "," + RenderEach(fs[i + 1..]);
    AtConcat3(text, 0, head, ",", RenderEach(fs[i + 1..]));
  }

  lemma FieldFound(text: string, fs: seq<Field>, i: nat) returns (v: nat)
    requires Renders(text, fs) && i < |fs|
    ensures ScanFrom(text, fs[i].key, 0) == Some(v) && At(text, v, fs[i].raw) && At(text, v + |fs[i].raw|, ",")
  {
    hide At, IsKey, Plain, RenderEach, ScanFrom, IsSpace;
    RenderedPrefix(text, fs, i);
    assert !KeyIn(fs[i].key, fs[..i]);
    ScanFindsField(text, fs[..i], fs[i]);
    v := ScanFrom(text, fs[i].key, 0).value;
  }

  lemma StringRead(text: string, fs: seq<Field>, i: nat, s: string)
    requires Renders(text, fs) && i < |fs| && fs[i].raw == StringValue(s)
    ensures GetString(text, fs[i].key) == s
  {
    hide At, Renders, ScanFrom, ReadString, Escaped, RecordUnescape;
    var v := FieldFound(text, fs, i);
    StringReadAt(text, v, s);
  }

  lemma StringReadAt(text: string, v: nat, s: string)
    requires At(text, v, StringValue(s))
    ensures v < |text| && text[v] == '"' && ReadString(text, v + 1, [], RecordUnescape) == Some((s, v + |Escaped(s)| + 2))
  {
    hide At, Undoes, RecordUnescape, Escaped;
    RecordUndoes();
    AtConcat3(text, v, "\"", Escaped(s), "\"");
    AtSingle(text, v, '"');
    ReadEscaped(text, v + 1, [], s, RecordUnescape);
    assert [] + s == s;
  }

  lemma SizeRead(text: string, fs: seq<Field>, i: nat, n: nat, fallback: nat)
    requires Renders(text, fs) && i < |fs| && fs[i].raw == Decimal(n)
    ensures GetSize(text, fs[i].key, fallback) == if n < 0x1_0000_0000_0000_0000 then n else fallback
  {
    var v := FieldFound(text, fs, i);
    DecimalRoundTrip(n);
    DigitsRead(text, v, Decimal(n));
  }

  lemma DigitsRead(text: string, v: nat, digits: string)
    requires Digits(digits) && digits != [] && At(text, v, digits) && At(text, v + |digits|, ",")
    ensures v < |text| && IsDigit(text[v]) && text[v..DigitsEnd(text, v)] == digits
  {
    DigitsEndUnique(text, v, v + |digits|);
    AtSlice(text, v, digits);
  }

  lemma DigitsEndUnique(text: string, i: nat, j: nat)
    requires i <= j < |text| && !IsDigit(text[j]) && forall k :: i <= k < j ==> IsDigit(text[k])
    ensures DigitsEnd(text, i) == j
  {
  }

  lemma BoolRead(text: string, fs: seq<Field>, i: nat, b: bool, fallback: bool)
    requires Renders(text, fs) && i < |fs| && fs[i].raw == if b then "true" else "false"
    ensures GetBool(text, fs[i].key, fallback) == b
  {
    var v := FieldFound(text, fs, i);
    assert text[v] == fs[i].raw[0];
  }

  // ----- Records from elsewhere ----------------------------------------------------------

  /** A key is seen wherever it stands in quotes in front of a colon, blanks aside. */
  lemma KeySeen(text: string, key: string, p: nat)
    ensures KeyAt(text, key, p) <==> exists b :: Blanks(b) && At(text, p, Quoted(key) + b + ":")
  {
    hide At, Blanks, Quoted;
    var q := p + |Quoted(key)|;
    if KeyAt(text, key, p) {
      var i := SkipSpace(text, q);
      var b := text[q..i];
      SkipSpaceBlank(text, q);
      BlanksAreBlank(b);
      AtSlice(text, q, b);
      AtSingle(text, i, ':');
      AtConcat(text, p, Quoted(key), b);
      AtConcat(text, p, Quoted(key) + b, ":");
    }
    if b :| Blanks(b) && At(text, p, Quoted(key) + b + ":") {
      AtConcat3(text, p, Quoted(key), b, ":");
      AtSingle(text, q + |b|, ':');
      BlanksAreBlank(b);
      AtChars(text, q, b);
      ColonNoSpace();
      SkipSpaceUnique(text, q, q + |b|);
    }
  }

  lemma ColonNoSpace()
    ensures !IsSpace(':')
  {
  }

  lemma {:induction false} ScanMisses(text: string, key: string, from: nat)
    requires forall p :: p >= from ==> !KeyAt(text, key, p)
    ensures ScanFrom(text, key, from) == None
    decreases |text| - from
  {
    hide KeyAt;
    ScanStep(text, key, from);
    var hit := Find(text, Quoted(key), from);
    if hit.Some? {
      QuotedInside(text, key, from);
      ScanMisses(text, key, hit.value + |Quoted(key)|);
    }
  }

  lemma QuotedInside(text: string, key: string, from: nat)
    requires Find(text, Quoted(key), from).Some?
    ensures from <= Find(text, Quoted(key), from).value && Find(text, Quoted(key), from).value + |Quoted(key)| <= |text|
    ensures |Quoted(key)| >= 2
  {
  }

  /** A record without the key reads as empty, or as the fallback. */
  lemma MissingRead(text: string, key: string, size: nat, flag: bool)
    requires forall p :: !KeyAt(text, key, p)
    ensures GetString(text, key) == "" && GetSize(text, key, size) == size && GetBool(text, key, flag) == flag
  {
    hide KeyAt, ScanFrom, ReadString, RecordUnescape;
    ScanMisses(text, key, 0);
  }
}

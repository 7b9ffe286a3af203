/** The JSON reader and pretty-printer of structure_adapters.cpp. */
module JsonText {
  import opened Text
  import opened FlatRecord

  datatype Json =
    | Null
    | Bool(value: bool)
    | Number(scalar: string)
    | Str(text: string)
    | Object(members: seq<Member>)
    | Array(items: seq<Json>)

  datatype Member = Member(key: string, value: Json)

  /** A parse result: the value and the position behind it, or the exception the reader throws. */
  datatype Parse<+T> = Done(value: T, pos: nat) | Failed

  // ----- The language the reader accepts -------------------------------------------------

  /** consume(c): the position behind `c`, when `c` comes next after blanks. */
  function Expect(text: string, pos: nat, c: char): (r: Option<nat>)
    requires pos <= |text|
    ensures r.Some? ==> pos < r.value <= |text|
  {
    var p := SkipSpace(text, pos);
    if p < |text| && text[p] == c then Some(p + 1) else None
  }

  lemma Opens(text: string, pos: nat, c: char)
    requires pos < |text| && text[pos] == c && !IsSpace(c)
    ensures Expect(text, pos, c) == Some(pos + 1)
  {
  }

  /** Blanks skipped beforehand make no difference. */
  lemma SkipTwice(text: string, pos: nat)
    requires pos <= |text|
    ensures SkipSpace(text, SkipSpace(text, pos)) == SkipSpace(text, pos)
    ensures forall c :: Expect(text, SkipSpace(text, pos), c) == Expect(text, pos, c)
    ensures ParseString(text, SkipSpace(text, pos)) == ParseString(text, pos)
  {
  }

  /** parse_string_raw */
  function ParseString(text: string, pos: nat): (r: Parse<string>)
    requires pos <= |text|
    ensures r.Done? ==> pos < r.pos <= |text|
  {
    var p := SkipSpace(text, pos);
    if p < |text| && text[p] == '"' then
      match ReadString(text, p + 1, [], JsonUnescape)
      case None => Failed
      case Some((value, end)) => Done(value, end)
    else Failed
  }

  predicate NumberChar(c: char)
  {
    IsDigit(c) || c == '-' || c == '+' || c == '.' || c == 'e' || c == 'E'
  }

  function NumberEnd(text: string, i: nat): (j: nat)
    requires i <= |text|
    ensures i <= j <= |text|
    decreases |text| - i
  {
    if i < |text| && NumberChar(text[i]) then NumberEnd(text, i + 1) else i
  }

  /** parse_value */
  function ParseValue(text: string, pos: nat): (r: Parse<Json>)
    requires pos <= |text|
    ensures r.Done? ==> pos < r.pos <= |text|
    decreases |text| - pos, 1
  {
    var p := SkipSpace(text, pos);
    if p == |text| then Failed
    else if text[p] == '{' then ParseObject(text, p)
    else if text[p] == '[' then ParseArray(text, p)
    else if text[p] == '"' then
      match ParseString(text, p)
      case Failed => Failed
      case Done(s, end) => Done(Str(s), end)
    else if At(text, p, "true") then Done(Bool(true), p + 4)
    else if At(text, p, "false") then Done(Bool(false), p + 5)
    else if At(text, p, "null") then Done(Null, p + 4)
    else if NumberEnd(text, p) == p then Failed
    else Done(Number(text[p..NumberEnd(text, p)]), NumberEnd(text, p))
  }

  /** parse_object, from its opening brace */
  function ParseObject(text: string, p: nat): (r: Parse<Json>)
    requires p < |text| && text[p] == '{'
    ensures r.Done? ==> p < r.pos <= |text|
    decreases |text| - p, 0
  {
    match Expect(text, p + 1, '}')
    case Some(end) => Done(Object([]), end)
    case None => ParseMembers(text, SkipSpace(text, p + 1), [])
  }

  /** A key, its colon and its value */
  function ParseMember(text: string, pos: nat): (r: Parse<Member>)
    requires pos <= |text|
    ensures r.Done? ==> pos < r.pos <= |text|
    decreases |text| - pos, 2
  {
    match ParseString(text, pos)
    case Failed => Failed
    case Done(key, afterKey) =>
      match Expect(text, afterKey, ':')
      case None => Failed
      case Some(afterColon) =>
        match ParseValue(text, afterColon)
        case Failed => Failed
        case Done(value, afterValue) => Done(Member(key, value), afterValue)
  }

  /** The loop of parse_object, with the members read so far. */
  function ParseMembers(text: string, pos: nat, read: seq<Member>): (r: Parse<Json>)
    requires pos <= |text|
    ensures r.Done? ==> pos < r.pos <= |text|
    decreases |text| - pos, 3
  {
    match ParseMember(text, pos)
    case Failed => Failed
    case Done(member, afterMember) =>
      var now := read + [member];
      match Expect(text, afterMember, '}')
      case Some(end) => Done(Object(now), end)
      case None =>
        match Expect(text, afterMember, ',')
        case None => Failed
        case Some(next) => ParseMembers(text, next, now)
  }

  /** parse_array, from its opening bracket */
  function ParseArray(text: string, p: nat): (r: Parse<Json>)
    requires p < |text| && text[p] == '['
    ensures r.Done? ==> p < r.pos <= |text|
    decreases |text| - p, 0
  {
    match Expect(text, p + 1, ']')
    case Some(end) => Done(Array([]), end)
    case None => ParseElements(text, SkipSpace(text, p + 1), [])
  }

  /** The loop of parse_array, with the elements read so far. */
  function ParseElements(text: string, pos: nat, read: seq<Json>): (r: Parse<Json>)
    requires pos <= |text|
    ensures r.Done? ==> pos < r.pos <= |text|
    decreases |text| - pos, 2
  {
    match ParseValue(text, pos)
    case Failed => Failed
    case Done(value, afterValue) =>
      var now := read + [value];
      match Expect(text, afterValue, ']')
      case Some(end) => Done(Array(now), end)
      case None =>
        match Expect(text, afterValue, ',')
        case None => Failed
        case Some(next) => ParseElements(text, next, now)
  }

  /** parse_json: a value with nothing but blanks behind it. */
  function ParseJson(text: string): Option<Json>
  {
    match ParseValue(text, 0)
    case Failed => None
    case Done(value, end) => if SkipSpace(text, end) == |text| then Some(value) else None
  }

  // ----- The reader ----------------------------------------------------------------------

  class JsonParser {
    const text: string
    var pos: nat

    constructor (text: string)
      ensures this.text == text && pos == 0
    {
      this.text := text;
      pos := 0;
    }

    method Ws()
      requires pos <= |text|
      modifies this
      ensures pos == SkipSpace(text, old(pos))
    {
      ghost var start := pos;
      while pos < |text| && IsSpace(text[pos])
        invariant start <= pos <= |text|
        invariant SkipSpace(text, start) == SkipSpace(text, pos)
      {
        pos := pos + 1;
      }
    }

    method Consume(c: char) returns (found: bool)
      requires pos <= |text|
      modifies this
      ensures found <==> Expect(text, old(pos), c).Some?
      ensures pos == if found then Expect(text, old(pos), c).value else SkipSpace(text, old(pos))
    {
      Ws();
      if pos < |text| && text[pos] == c {
        pos := pos + 1;
        return true;
      }
      return false;
    }

    method ParseStringRaw() returns (r: Option<string>)
      requires pos <= |text|
      modifies this
      ensures pos <= |text|
      ensures match ParseString(text, old(pos))
              case Failed => r == None
              case Done(value, end) => r == Some(value) && pos == end
    {
      Ws();
      if pos >= |text| || text[pos] != '"' { return None; }
      pos := pos + 1;
      var out := "";
      ghost var whole := ReadString(text, pos, [], JsonUnescape);
      ghost var start := pos;
      while pos < |text|
        invariant start <= pos <= |text|
        invariant whole == ReadString(text, pos, out, JsonUnescape)
        decreases |text| - pos
      {
        var c := text[pos];
        pos := pos + 1;
        if c == '"' { return Some(out); }
        if c == '\\' {
          if pos >= |text| { return None; }
          var e := text[pos];
          pos := pos + 1;
          out := out + [JsonUnescape(e)];
        } else {
          out := out + [c];
        }
      }
      return None;
    }

    method ReadValue() returns (r: Option<Json>)
      requires pos <= |text|
      modifies this
      ensures pos <= |text|
      ensures match ParseValue(text, old(pos))
              case Failed => r == None
              case Done(value, end) => r == Some(value) && pos == end
      decreases |text| - pos, 1
    {
      ghost var start := pos;
      Ws();
      if pos >= |text| { return None; }
      var c := text[pos];
      if c == '{' { r := ReadObject(); return; }
      if c == '[' { r := ReadArray(); return; }
      if c == '"' {
        var s := ParseStringRaw();
        return if s.Some? then Some(Str(s.value)) else None;
      }
      if At(text, pos, "true") { pos := pos + 4; return Some(Bool(true)); }
      if At(text, pos, "false") { pos := pos + 5; return Some(Bool(false)); }
      if At(text, pos, "null") { pos := pos + 4; return Some(Null); }
      var from := pos;
      while pos < |text| && NumberChar(text[pos])
        invariant from <= pos <= |text|
        invariant NumberEnd(text, from) == NumberEnd(text, pos)
        decreases |text| - pos
      {
        pos := pos + 1;
      }
      if from == pos { return None; }
      return Some(Number(text[from..pos]));
    }

    method ReadObject() returns (r: Option<Json>)
      requires pos < |text| && text[pos] == '{'
      modifies this
      ensures pos <= |text|
      ensures match ParseObject(text, old(pos))
              case Failed => r == None
              case Done(value, end) => r == Some(value) && pos == end
      decreases |text| - pos, 0
    {
      ghost var whole := ParseObject(text, pos);
      hide SkipSpace, Expect, ParseMember;
      ghost var open := pos;
      Opens(text, pos, '{');
      SkipTwice(text, pos + 1);
      var b := Consume('{');
      Ws();
      b := Consume('}');
      if b { return Some(Object([])); }
      var members := [];
      while true
        invariant open < pos <= |text|
        invariant whole == ParseMembers(text, pos, members)
        decreases |text| - pos
      {
        var member := ReadMember();
        if member.None? { return None; }
        members := members + [member.value];
        SkipTwice(text, pos);
        Ws();
        b := Consume('}');
        if b { break; }
        b := Consume(',');
        if !b { return None; }
      }
      return Some(Object(members));
    }

    method ReadMember() returns (r: Option<Member>)
      requires pos <= |text|
      modifies this
      ensures pos <= |text|
      ensures match ParseMember(text, old(pos))
              case Failed => r == None
              case Done(member, end) => r == Some(member) && pos == end
      decreases |text| - pos, 2
    {
      var key := ParseStringRaw();
      if key.None? { return None; }
      var b := Consume(':');
      if !b { return None; }
      var value := ReadValue();
      return if value.None? then None else Some(Member(key.value, value.value));
    }

    method ReadArray() returns (r: Option<Json>)
      requires pos < |text| && text[pos] == '['
      modifies this
      ensures pos <= |text|
      ensures match ParseArray(text, old(pos))
              case Failed => r == None
              case Done(value, end) => r == Some(value) && pos == end
      decreases |text| - pos, 0
    {
      ghost var whole := ParseArray(text, pos);
      hide SkipSpace, Expect, ParseValue, ParseString;
      ghost var open := pos;
      Opens(text, pos, '[');
      SkipTwice(text, pos + 1);
      var b := Consume('[');
      Ws();
      b := Consume(']');
      if b { return Some(Array([])); }
      var items := [];
      while true
        invariant open < pos <= |text|
        invariant whole == ParseElements(text, pos, items)
        decreases |text| - pos
      {
        var value := ReadValue();
        if value.None? { return None; }
        items := items + [value.value];
        SkipTwice(text, pos);
        Ws();
        b := Consume(']');
        if b { break; }
        b := Consume(',');
        if !b { return None; }
      }
      return Some(Array(items));
    }
  }

  /** parse_json */
  method ReadJson(text: string) returns (r: Option<Json>)
    ensures r == ParseJson(text)
  {
    var parser := new JsonParser(text);
    r := parser.ReadValue();
    if r.None? { return None; }
    parser.Ws();
    if parser.pos != |text| { return None; }
  }

  // ----- The printer ---------------------------------------------------------------------

  function Indent(depth: nat): (s: string)
    ensures |s| == 2 * depth
  {
    seq(depth * 2, _ => ' ')
  }

  /** json_serialize, with the newline it writes as a parameter: a file may be laid out with another. */
  function PrintedWith(node: Json, depth: nat, nl: string): string
    decreases node, 1
  {
    match node
    case Null => "null"
    case Bool(b) => if b then "true" else "false"
    case Number(scalar) => scalar
    case Str(s) => StringValue(s)
    case Array(items) =>
      if items == [] then "[]"
      else "[" + nl + PrintedItems(items, depth + 1, nl) + (nl + Indent(depth)) + "]"
    case Object(members) =>
      if members == [] then "{}"
      else "{" + nl + PrintedMembers(members, depth + 1, nl) + (nl + Indent(depth)) + "}"
  }

  function PrintedItems(items: seq<Json>, depth: nat, nl: string): string
    decreases items, 0
  {
    if items == [] then []
    else Indent(depth) + PrintedWith(items[0], depth, nl) +
         (if |items| == 1 then [] else "," + nl + PrintedItems(items[1..], depth, nl))
  }

  function PrintedMembers(members: seq<Member>, depth: nat, nl: string): string
    decreases members, 0
  {
    if members == [] then []
    else Indent(depth) + StringValue(members[0].key) + ": " + PrintedWith(members[0].value, depth, nl) +
         (if |members| == 1 then [] else "," + nl + PrintedMembers(members[1..], depth, nl))
  }

  function Printed(node: Json, depth: nat): string { PrintedWith(node, depth, "\n") }
}

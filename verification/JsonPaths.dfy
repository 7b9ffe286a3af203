/** Editing JSON files by key path (structure_adapters.cpp), on trees and on file texts. */
module JsonPaths {
  import opened Text
  import opened JsonText
  import opened JsonRoundTrip

  // ----- Key paths -----------------------------------------------------------------------

  /** split_path's loop: the parts finished so far and the part being read. */
  function SplitState(text: string): (seq<string>, string)
  {
    if text == [] then ([], [])
    else
      var (out, cur) := SplitState(text[..|text| - 1]);
      var c := text[|text| - 1];
      if c == '.' then (if cur == [] then out else out + [cur], []) else (out, cur + [c])
  }

  function SplitPath(text: string): seq<string>
  {
    var (out, cur) := SplitState(text);
    if cur == [] then out else out + [cur]
  }

  method SplitKeyPath(text: string) returns (out: seq<string>)
    ensures out == SplitPath(text)
  {
    out := [];
    var cur := "";
    for i := 0 to |text|
      invariant (out, cur) == SplitState(text[..i])
    {
      assert text[..i + 1][..i] == text[..i];
      if text[i] == '.' {
        if cur != [] { out := out + [cur]; }
        cur := [];
      } else {
        cur := cur + [text[i]];
      }
    }
    assert text[..|text|] == text;
    if cur != [] { out := out + [cur]; }
  }

  function JoinPath(parts: seq<string>): string
  {
    if parts == [] then []
    else if |parts| == 1 then parts[0]
    else JoinPath(parts[..|parts| - 1]) + "." + parts[|parts| - 1]
  }

  ghost predicate PathParts(parts: seq<string>)
  {
    forall i :: 0 <= i < |parts| ==> parts[i] != [] && '.' !in parts[i]
  }

  lemma SplitStateChar(text: string, c: char)
    ensures SplitState(text + [c]) ==
            var (out, cur) := SplitState(text);
            if c == '.' then (if cur == [] then out else out + [cur], []) else (out, cur + [c])
  {
    assert (text + [c])[..|text|] == text;
  }

  lemma {:induction false} SplitStateWord(text: string, word: string)
    requires '.' !in word
    ensures SplitState(text + word) == (SplitState(text).0, SplitState(text).1 + word)
    decreases |word|
  {
    hide SplitState;
    if word == [] {
      assert text + word == text;
      assert SplitState(text).1 + word == SplitState(text).1;
    } else {
      var front, c := word[..|word| - 1], word[|word| - 1];
      assert c in word;
      SplitStateWord(text, front);
      SplitStateChar(text + front, c);
      assert text + word == text + front + [c];
      assert SplitState(text).1 + word == SplitState(text).1 + front + [c];
    }
  }

  /** A dotted key path is split back into the parts it was joined from. */
  lemma {:induction false} SplitOfJoin(parts: seq<string>)
    requires PathParts(parts)
    ensures SplitPath(JoinPath(parts)) == parts
    ensures parts != [] ==> SplitState(JoinPath(parts)) == (parts[..|parts| - 1], parts[|parts| - 1])
  {
    if parts != [] {
      var front, last := parts[..|parts| - 1], parts[|parts| - 1];
      assert parts == front + [last];
      SplitOfJoin(front);
      JoinSnoc(front, last);
    }
  }

  /** Dots separate, and empty parts are dropped: the parts of two texts with a dot between them are the parts of
      the one and then of the other; a text without dots is one part, or none. */
  lemma {:induction false} SplitAtDot(a: string, b: string)
    ensures SplitPath(a + "." + b) == SplitPath(a) + SplitPath(b)
    ensures '.' !in b ==> SplitPath(b) == if b == "" then [] else [b]
    decreases |b|
  {
    hide SplitState;
    SplitNothing();
    SplitStateBehind(a, b);
    if '.' !in b {
      SplitStateWord("", b);
      assert "" + b == b;
    }
    var (out, cur) := SplitState(b);
    if cur == [] {
      assert SplitPath(a) + out + [] == SplitPath(a) + out;
    } else {
      assert SplitPath(a) + out + [cur] == SplitPath(a) + (out + [cur]);
    }
  }

  lemma SplitNothing()
    ensures SplitState("") == ([], "")
  {
  }

  /** Behind a dot the parts in front are finished. */
  lemma {:induction false} SplitStateBehind(a: string, b: string)
    ensures SplitState(a + "." + b) == (SplitPath(a) + SplitState(b).0, SplitState(b).1)
    decreases |b|
  {
    hide SplitState;
    SplitNothing();
    if b == "" {
      SplitStateChar(a, '.');
      assert a + "." + "" == a + ['.'];
      assert SplitPath(a) + [] == SplitPath(a);
    } else {
      var front, c := b[..|b| - 1], b[|b| - 1];
      assert a + "." + b == a + "." + front + [c] && b == front + [c];
      SplitStateBehind(a, front);
      SplitStateChar(a + "." + front, c);
      SplitStateChar(front, c);
      var (out, cur) := SplitState(front);
      assert SplitPath(a) + out + [cur] == SplitPath(a) + (out + [cur]);
    }
  }

  lemma NextPart(text: string, done: seq<string>, part: string, last: string)
    requires SplitState(text) == (done, part) && part != [] && '.' !in last
    ensures SplitState(text + "." + last) == (done + [part], last)
  {
    hide SplitState;
    SplitStateChar(text, '.');
    assert text + ['.'] == text + ".";
    SplitStateWord(text + ".", last);
    assert [] + last == last;
  }

  lemma JoinSnoc(front: seq<string>, last: string)
    requires '.' !in last && last != []
    requires front != [] ==> front[|front| - 1] != []
    requires front != [] ==> SplitState(JoinPath(front)) == (front[..|front| - 1], front[|front| - 1])
    ensures SplitState(JoinPath(front + [last])) == (front, last)
  {
    hide SplitState, JoinPath;
    JoinStep(front, last);
    if front == [] {
      SplitStateNil();
      SplitStateWord([], last);
      assert [] + last == last;
    } else {
      var done, part := front[..|front| - 1], front[|front| - 1];
      assert front == done + [part];
      NextPart(JoinPath(front), done, part, last);
    }
  }

  lemma JoinStep(front: seq<string>, last: string)
    ensures JoinPath(front + [last]) == if front == [] then last else JoinPath(front) + "." + last
  {
    assert (front + [last])[..|front|] == front;
  }

  lemma SplitStateNil()
    ensures SplitState([]) == ([], [])
  {
  }

  // ----- Looking up ----------------------------------------------------------------------

  /** The first member with a key, as json_object_get finds it. */
  function IndexOf(members: seq<Member>, key: string): (r: Option<nat>)
    ensures r.Some? ==> r.value < |members| && members[r.value].key == key
    ensures r.Some? ==> forall i :: 0 <= i < r.value ==> members[i].key != key
    ensures r.None? ==> forall i :: 0 <= i < |members| ==> members[i].key != key
  {
    if members == [] then None
    else
      match IndexOf(members[..|members| - 1], key)
      case Some(i) => Some(i)
      case None => if members[|members| - 1].key == key then Some(|members| - 1) else None
  }

  function MembersOf(node: Json): seq<Member>
  {
    if node.Object? then node.members else []
  }

  function Get(node: Json, key: string): Option<Json>
  {
    match IndexOf(MembersOf(node), key)
    case None => None
    case Some(i) => Some(MembersOf(node)[i].value)
  }

  /** json_object_get */
  method ObjectGet(node: Json, key: string) returns (r: Option<Json>)
    ensures r == Get(node, key)
  {
    if !node.Object? { return None; }
    for i := 0 to |node.members|
      invariant forall k :: 0 <= k < i ==> node.members[k].key != key
    {
      if node.members[i].key == key { return Some(node.members[i].value); }
    }
    return None;
  }

  function FindPath(node: Json, parts: seq<string>): Option<Json>
  {
    if parts == [] then Some(node)
    else match Get(node, parts[0])
         case None => None
         case Some(child) => FindPath(child, parts[1..])
  }

  /** json_find_path */
  method FindByPath(root: Json, parts: seq<string>) returns (r: Option<Json>)
    ensures r == FindPath(root, parts)
  {
    var cur := root;
    for i := 0 to |parts|
      invariant FindPath(root, parts) == FindPath(cur, parts[i..])
    {
      assert parts[i..][1..] == parts[i + 1..];
      if !cur.Object? { return None; }
      var next := ObjectGet(cur, parts[i]);
      if next.None? { return None; }
      cur := next.value;
    }
    return Some(cur);
  }

  // ----- Updating ------------------------------------------------------------------------

  /** The first member with the key gets the value; a missing key is added at the end. */
  function SetMember(members: seq<Member>, key: string, value: Json): seq<Member>
  {
    match IndexOf(members, key)
    case Some(i) => members[i := Member(key, value)]
    case None => members + [Member(key, value)]
  }

  /** json_ensure_object_path without its last part, and then the assignment to the last part:
      whatever is in the way and not an object becomes an empty object. */
  function Upsert(node: Json, parts: seq<string>, value: Json): (r: Json)
    requires parts != []
    decreases |parts|
  {
    var child := if |parts| == 1 then value else Upsert(Get(node, parts[0]).GetOr(Object([])), parts[1..], value);
    Object(SetMember(MembersOf(node), parts[0], child))
  }

  lemma GetSet(node: Json, key: string, value: Json, other: string)
    ensures Get(Object(SetMember(MembersOf(node), key, value)), other) ==
            if other == key then Some(value) else Get(node, other)
  {
    hide IndexOf;
    var ms := MembersOf(node);
    var ns := SetMember(ms, key, value);
    var i := IndexOf(ms, key);
    var j := IndexOf(ns, other);
    if other == key {
      var at := if i.Some? then i.value else |ms|;
      assert ns[at].key == key;
      FirstIndex(ns, key, at);
    } else {
      var k := IndexOf(ms, other);
      if k.Some? {
        assert ns[k.value] == ms[k.value];
        FirstIndex(ns, other, k.value);
      } else {
        assert forall m :: 0 <= m < |ns| ==> ns[m].key != other;
      }
    }
  }

  lemma FirstIndex(members: seq<Member>, key: string, i: nat)
    requires i < |members| && members[i].key == key && forall k :: 0 <= k < i ==> members[k].key != key
    ensures IndexOf(members, key) == Some(i)
  {
  }

  lemma PrefixTail(p: seq<string>, q: seq<string>)
    requires p != [] && q != [] && p[0] == q[0]
    ensures p <= q <==> p[1..] <= q[1..]
  {
    assert p == [p[0]] + p[1..] && q == [q[0]] + q[1..];
  }

  lemma EmptyHasNothing(parts: seq<string>)
    ensures parts != [] ==> FindPath(Object([]), parts) == None
  {
  }

  /** One step of an update: the child under the first part of the path. */
  function Child(node: Json, p: seq<string>, value: Json): Json
    requires p != []
  {
    if |p| == 1 then value else Upsert(Get(node, p[0]).GetOr(Object([])), p[1..], value)
  }

  lemma FindInUpsert(node: Json, p: seq<string>, value: Json, q: seq<string>)
    requires p != [] && q != []
    ensures FindPath(Upsert(node, p, value), q) ==
            if q[0] == p[0] then FindPath(Child(node, p, value), q[1..]) else FindPath(node, q)
  {
    hide SetMember, Get;
    var child := Child(node, p, value);
    assert Upsert(node, p, value) == Object(SetMember(MembersOf(node), p[0], child));
    GetSet(node, p[0], child, q[0]);
  }

  lemma FindStep(node: Json, q: seq<string>)
    requires q != []
    ensures FindPath(node, q) == match Get(node, q[0]) case None => None case Some(next) => FindPath(next, q[1..])
  {
    hide Get;
  }

  /** On the updated path and below it a lookup finds the new value and its inside. */
  lemma {:induction false} LookupBelow(node: Json, p: seq<string>, value: Json, q: seq<string>)
    requires p != [] && p <= q
    ensures FindPath(Upsert(node, p, value), q) == FindPath(value, q[|p|..])
    decreases |p|
  {
    hide Upsert, FindPath;
    FindInUpsert(node, p, value, q);
    if |p| > 1 {
      PrefixTail(p, q);
      LookupBelow(Get(node, p[0]).GetOr(Object([])), p[1..], value, q[1..]);
      assert q[1..][|p| - 1..] == q[|p|..];
    }
  }

  /** Above it a lookup finds the updated container. */
  lemma {:induction false} LookupAbove(node: Json, p: seq<string>, value: Json, q: seq<string>)
    requires q < p
    ensures FindPath(Upsert(node, p, value), q) ==
            Some(Upsert(FindPath(node, q).GetOr(Object([])), p[|q|..], value))
    decreases |p|
  {
    hide Upsert, Get;
    if q == [] {
      assert p[0..] == p;
    } else {
      FindInUpsert(node, p, value, q);
      FindStep(node, q);
      PrefixTail(q, p);
      LookupAbove(Get(node, p[0]).GetOr(Object([])), p[1..], value, q[1..]);
      EmptyHasNothing(q[1..]);
      assert p[1..][|q| - 1..] == p[|q|..];
    }
  }

  /** Beside it a lookup finds what was there before, or nothing as before. */
  lemma {:induction false} LookupBeside(node: Json, p: seq<string>, value: Json, q: seq<string>)
    requires p != [] && !(p <= q) && !(q <= p)
    ensures FindPath(Upsert(node, p, value), q) == FindPath(node, q)
    decreases |p|
  {
    hide Upsert, FindPath, Get;
    FindInUpsert(node, p, value, q);
    if q[0] == p[0] {
      PrefixTail(p, q);
      PrefixTail(q, p);
      LookupBeside(Get(node, p[0]).GetOr(Object([])), p[1..], value, q[1..]);
      FindStep(node, q);
      EmptyHasNothing(q[1..]);
    }
  }

  /** What a lookup finds after an update, for every path: on the path the new value, below it
      the inside of the new value, above it the updated container, elsewhere what was there. */
  lemma LookupAfterUpsert(node: Json, p: seq<string>, value: Json, q: seq<string>)
    requires p != []
    ensures p <= q ==> FindPath(Upsert(node, p, value), q) == FindPath(value, q[|p|..])
    ensures q < p ==>
              FindPath(Upsert(node, p, value), q) ==
              Some(Upsert(FindPath(node, q).GetOr(Object([])), p[|q|..], value))
    ensures !(p <= q) && !(q <= p) ==> FindPath(Upsert(node, p, value), q) == FindPath(node, q)
  {
    hide Upsert, FindPath;
    if p <= q {
      LookupBelow(node, p, value, q);
    } else if q <= p {
      LookupAbove(node, p, value, q);
    } else {
      LookupBeside(node, p, value, q);
    }
  }

  /** Setting a path twice is setting it once. */
  lemma {:induction false} UpsertTwice(node: Json, p: seq<string>, v: Json, w: Json)
    requires p != []
    ensures Upsert(Upsert(node, p, v), p, w) == Upsert(node, p, w)
    decreases |p|
  {
    hide SetMember, Get;
    var below := Get(node, p[0]).GetOr(Object([]));
    var first := if |p| == 1 then v else Upsert(below, p[1..], v);
    var second := if |p| == 1 then w else Upsert(below, p[1..], w);
    var once := Upsert(node, p, v);
    assert once == Object(SetMember(MembersOf(node), p[0], first));
    GetSet(node, p[0], first, p[0]);
    if |p| > 1 { UpsertTwice(below, p[1..], v, w); }
    SetTwice(MembersOf(node), p[0], first, second);
  }

  lemma SetTwice(members: seq<Member>, key: string, v: Json, w: Json)
    ensures SetMember(SetMember(members, key, v), key, w) == SetMember(members, key, w)
  {
    hide IndexOf;
    var i := IndexOf(members, key);
    var at := if i.Some? then i.value else |members|;
    var once := SetMember(members, key, v);
    FirstIndex(once, key, at);
    assert once[at := Member(key, w)] == SetMember(members, key, w);
  }

  /** Setting a path to what is there already changes nothing. */
  lemma {:induction false} UpsertSame(node: Json, p: seq<string>, v: Json)
    requires p != [] && FindPath(node, p) == Some(v)
    ensures Upsert(node, p, v) == node
    decreases |p|
  {
    hide IndexOf;
    if |p| > 1 { UpsertSame(Get(node, p[0]).value, p[1..], v); }
    SetSame(node, p[0]);
  }

  lemma SetSame(node: Json, key: string)
    requires Get(node, key).Some?
    ensures node == Object(SetMember(MembersOf(node), key, Get(node, key).value))
  {
    var ms := MembersOf(node);
    var i := IndexOf(ms, key).value;
    assert ms[i] == Member(key, ms[i].value);
    assert ms[i := ms[i]] == ms;
  }

  lemma {:induction false} UpsertWellFormed(node: Json, p: seq<string>, v: Json)
    requires p != [] && WellFormed(node) && WellFormed(v)
    ensures WellFormed(Upsert(node, p, v))
    decreases |p|
  {
    var below := Get(node, p[0]).GetOr(Object([]));
    if |p| > 1 { UpsertWellFormed(below, p[1..], v); }
    var child := if |p| == 1 then v else Upsert(below, p[1..], v);
    SetWellFormed(MembersOf(node), p[0], child);
  }

  lemma SetWellFormed(members: seq<Member>, key: string, v: Json)
    requires (forall i :: 0 <= i < |members| ==> WellFormed(members[i].value)) && WellFormed(v)
    ensures WellFormed(Object(SetMember(members, key, v)))
  {
  }

  lemma {:induction false} FoundWellFormed(node: Json, p: seq<string>)
    requires WellFormed(node) && FindPath(node, p).Some?
    ensures WellFormed(FindPath(node, p).value)
    decreases |p|
  {
    if p != [] { FoundWellFormed(Get(node, p[0]).value, p[1..]); }
  }

  // ----- The edits on file texts ---------------------------------------------------------

  /** The new tree of json_replace_value: the path must exist; an empty path is the root. */
  function Replaced(root: Json, p: seq<string>, v: Json): Option<Json>
  {
    if FindPath(root, p).None? then None
    else if p == [] then Some(v)
    else Some(Upsert(root, p, v))
  }

  /** The new tree of json_append_array_item: a missing list is created. */
  function Appended(root: Json, p: seq<string>, v: Json): Option<Json>
  {
    match FindPath(root, p)
    case None => Some(Upsert(root, p, Array([v])))
    case Some(Array(items)) => if p == [] then Some(Array(items + [v])) else Some(Upsert(root, p, Array(items + [v])))
    case Some(_) => None
  }

  datatype Edit = Replace | UpsertKey | Append

  function EditTree(edit: Edit, root: Json, p: seq<string>, v: Json): Option<Json>
  {
    match edit
    case Replace => Replaced(root, p, v)
    case UpsertKey => if p == [] then None else Some(Upsert(root, p, v))
    case Append => Appended(root, p, v)
  }

  /** The staged text of an edit; None when the edit is refused. */
  function EditText(edit: Edit, current: string, keyPath: string, newValue: string): Option<string>
  {
    match (ParseJson(current), ParseJson(newValue))
    case (Some(root), Some(value)) =>
      (match EditTree(edit, root, SplitPath(keyPath), value)
       case None => None
       case Some(next) => if FileText(next) == current then None else Some(FileText(next)))
    case _ => None
  }

  lemma EditTreeWellFormed(edit: Edit, root: Json, p: seq<string>, v: Json)
    requires WellFormed(root) && WellFormed(v) && EditTree(edit, root, p, v).Some?
    ensures WellFormed(EditTree(edit, root, p, v).value)
  {
    hide Upsert;
    if FindPath(root, p).Some? { FoundWellFormed(root, p); }
    if edit.Append? {
      var item := match FindPath(root, p) case Some(Array(items)) => Array(items + [v]) case _ => Array([v]);
      assert WellFormed(item);
      if p != [] { UpsertWellFormed(root, p, item); }
    } else if p != [] {
      UpsertWellFormed(root, p, v);
    }
  }

  /** The new list an append leaves at the path. */
  function WithItem(before: Option<Json>, v: Json): Json
  {
    match before
    case Some(Array(items)) => Array(items + [v])
    case _ => Array([v])
  }

  /** Any staged JSON edit parses again; looking up its path finds the new value (or the list with
      the new item last), and every path beside it finds what it found in the old text. */
  lemma EditedTextLookups(edit: Edit, current: string, keyPath: string, newValue: string, q: seq<string>)
    requires EditText(edit, current, keyPath, newValue).Some?
    ensures var p := SplitPath(keyPath);
            var root, value := ParseJson(current).value, ParseJson(newValue).value;
            var next := ParseJson(EditText(edit, current, keyPath, newValue).value);
            next.Some? &&
            FindPath(next.value, p) ==
              Some(if edit.Append? then WithItem(FindPath(root, p), value) else value) &&
            (!(p <= q) && !(q <= p) ==> FindPath(next.value, q) == FindPath(root, q))
  {
    hide Upsert, ParseValue, Printed, WellFormed, SplitPath;
    var p := SplitPath(keyPath);
    var root, value := ParseJson(current).value, ParseJson(newValue).value;
    ValueWellFormed(current, 0);
    ValueWellFormed(newValue, 0);
    EditTreeWellFormed(edit, root, p, value);
    PrintThenParse(EditTree(edit, root, p, value).value);
    var put := if edit.Append? then WithItem(FindPath(root, p), value) else value;
    if p != [] {
      LookupAfterUpsert(root, p, put, p);
      LookupAfterUpsert(root, p, put, q);
      assert p[|p|..] == [];
    }
  }

  /** When a JSON edit is refused: the content or the value is no JSON; a value to replace is not there; a key to
      set has no name; a value to append to is no list; or nothing would change. */
  lemma EditAnswers(edit: Edit, current: string, keyPath: string, newValue: string)
    ensures var root, value, p := ParseJson(current), ParseJson(newValue), SplitPath(keyPath);
            EditText(edit, current, keyPath, newValue).None? <==>
            root.None? || value.None? ||
            (match edit
             case Replace => FindPath(root.value, p).None?
             case UpsertKey => p == []
             case Append => FindPath(root.value, p).Some? && !FindPath(root.value, p).value.Array?) ||
            (EditTree(edit, root.value, p, value.value) == Some(root.value) && current == FileText(root.value))
  {
    hide ParseValue, Upsert, Printed, SplitPath, WellFormed;
    var root, value, p := ParseJson(current), ParseJson(newValue), SplitPath(keyPath);
    if root.Some? && value.Some? {
      TreeAnswers(edit, root.value, p, value.value);
      var next := EditTree(edit, root.value, p, value.value);
      if next.Some? && FileText(next.value) == current {
        ValueWellFormed(current, 0);
        ValueWellFormed(newValue, 0);
        EditTreeWellFormed(edit, root.value, p, value.value);
        PrintThenParse(next.value);
      }
    }
  }

  lemma TreeAnswers(edit: Edit, root: Json, p: seq<string>, v: Json)
    ensures EditTree(edit, root, p, v).None? <==>
            match edit
            case Replace => FindPath(root, p).None?
            case UpsertKey => p == []
            case Append => FindPath(root, p).Some? && !FindPath(root, p).value.Array?
  {
    hide Upsert;
  }

  /** An edit keeps the members of every object in their order: a key that is there stays where it is, and a new
      one comes last. */
  lemma MembersKeepOrder(members: seq<Member>, key: string, value: Json)
    ensures var out := SetMember(members, key, value);
            if exists i :: 0 <= i < |members| && members[i].key == key then
              |out| == |members| && (forall i :: 0 <= i < |members| ==> out[i].key == members[i].key) &&
              forall i :: 0 <= i < |members| && members[i].key != key ==> out[i] == members[i]
            else out == members + [Member(key, value)]
  {
    hide IndexOf;
  }
}

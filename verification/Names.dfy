/** The order of names (std::string's operator<) and strictly sorted lists of names, which is how
    std::map and the sorted directory listings walk their keys. */
module Names {

  predicate Less(a: string, b: string)
  {
    if b == [] then false
    else if a == [] then true
    else if a[0] != b[0] then a[0] < b[0]
    else Less(a[1..], b[1..])
  }

  lemma {:induction false} LessIrreflexive(a: string)
    ensures !Less(a, a)
  {
    if a != [] { LessIrreflexive(a[1..]); }
  }

  lemma {:induction false} LessTotal(a: string, b: string)
    ensures a == b || Less(a, b) || Less(b, a)
  {
    if a != [] && b != [] && a[0] == b[0] {
      LessTotal(a[1..], b[1..]);
      assert a == [a[0]] + a[1..] && b == [b[0]] + b[1..];
    }
  }

  lemma {:induction false} LessTransitive(a: string, b: string, c: string)
    requires Less(a, b) && Less(b, c)
    ensures Less(a, c)
  {
    if a != [] && a[0] == b[0] == c[0] { LessTransitive(a[1..], b[1..], c[1..]); }
  }

  ghost predicate Sorted(names: seq<string>)
  {
    forall i, j :: 0 <= i < j < |names| ==> Less(names[i], names[j])
  }

  /** How many leading names are less than `name`. */
  function Position(names: seq<string>, name: string): (k: nat)
    ensures k <= |names|
    ensures forall i :: 0 <= i < k ==> Less(names[i], name)
    ensures k < |names| ==> !Less(names[k], name)
  {
    if names == [] || !Less(names[0], name) then 0 else 1 + Position(names[1..], name)
  }

  predicate Holds(names: seq<string>, name: string)
  {
    var k := Position(names, name);
    k < |names| && names[k] == name
  }

  function Insert(names: seq<string>, name: string): seq<string>
  {
    var k := Position(names, name);
    if Holds(names, name) then names else names[..k] + [name] + names[k..]
  }

  lemma InsertSorted(names: seq<string>, name: string)
    requires Sorted(names)
    ensures Sorted(Insert(names, name))
    ensures forall n :: n in Insert(names, name) <==> n in names || n == name
  {
    var k, out := Position(names, name), Insert(names, name);
    if !Holds(names, name) {
      forall i, j | 0 <= i < j < |out| ensures Less(out[i], out[j]) {
        if i == k {
          LessTotal(names[k], name);
          if j > k + 1 { LessTransitive(name, names[k], names[j - 1]); }
        }
      }
      assert out == names[..k] + [name] + names[k..];
      assert names == names[..k] + names[k..];
      forall n ensures n in out <==> n in names || n == name {
        assert n in out <==> n in names[..k] || n == name || n in names[k..];
      }
    } else {
      assert names[k] in names;
    }
  }

  /** A strictly sorted list is determined by its members. */
  lemma {:induction false} SortedUnique(a: seq<string>, b: seq<string>)
    requires Sorted(a) && Sorted(b) && forall n :: n in a <==> n in b
    ensures a == b
    decreases |a|
  {
    assert b != [] ==> b[0] in b;
    if a != [] {
      assert a[0] in b;
      SameFirst(a, b);
      forall n ensures n in a[1..] <==> n in b[1..] {
        TailMembers(a, n);
        TailMembers(b, n);
      }
      SortedUnique(a[1..], b[1..]);
      assert a == [a[0]] + a[1..] && b == [b[0]] + b[1..];
    }
  }

  lemma SameFirst(a: seq<string>, b: seq<string>)
    requires Sorted(a) && Sorted(b) && a != [] && b != [] && a[0] in b && (forall n :: n in a <==> n in b)
    ensures a[0] == b[0]
  {
    assert b[0] in b;
    LessIrreflexive(a[0]);
    var i :| 0 <= i < |b| && b[i] == a[0];
    var j :| 0 <= j < |a| && a[j] == b[0];
    if i > 0 && j > 0 {
      LessTransitive(a[0], b[0], a[0]);
    }
  }

  lemma TailMembers(a: seq<string>, n: string)
    requires Sorted(a) && a != []
    ensures n in a[1..] <==> n in a && n != a[0]
  {
    assert a == [a[0]] + a[1..];
    LessIrreflexive(a[0]);
    if n in a[1..] {
      var i :| 0 <= i < |a[1..]| && a[1..][i] == n;
      assert Less(a[0], a[i + 1]);
    }
  }
}

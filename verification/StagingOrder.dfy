/** The order in which a session's changes are read back: by file name (session_service.cpp:
    save_change, change_files). */
module StagingOrder {
  import opened Text
  import opened ChangeRecord
  import opened Names
  import opened Recovery
  import opened Sessions

  // ----- Numbers of equal width ----------------------------------------------------------

  lemma {:induction false} LessInFront(a: string, b: string, x: string, y: string)
    requires |a| == |b| && Less(a, b)
    ensures Less(a + x, b + y)
  {
    if a != [] {
      assert (a + x)[1..] == a[1..] + x && (b + y)[1..] == b[1..] + y;
      if a[0] == b[0] { LessInFront(a[1..], b[1..], x, y); }
    }
  }

  lemma {:induction false} LessAtEnd(a: string, x: char, y: char)
    requires x < y
    ensures Less(a + [x], a + [y])
  {
    if a != [] {
      assert (a + [x])[1..] == a[1..] + [x] && (a + [y])[1..] == a[1..] + [y];
      LessAtEnd(a[1..], x, y);
    }
  }

  lemma {:induction false} SameNumber(a: string, b: string)
    requires |a| == |b| && Digits(a) && Digits(b) && DecimalValue(a) == DecimalValue(b)
    ensures a == b
  {
    if a != [] {
      SameNumber(a[..|a| - 1], b[..|b| - 1]);
      assert a == a[..|a| - 1] + [a[|a| - 1]] && b == b[..|b| - 1] + [b[|b| - 1]];
    }
  }

  /** Digit strings of equal width sort by value. */
  lemma {:induction false} LessByValue(a: string, b: string)
    requires |a| == |b| && Digits(a) && Digits(b) && DecimalValue(a) < DecimalValue(b)
    ensures Less(a, b)
  {
    var p, q, x, y := a[..|a| - 1], b[..|b| - 1], a[|a| - 1], b[|b| - 1];
    assert a == p + [x] && b == q + [y];
    if DecimalValue(p) == DecimalValue(q) {
      SameNumber(p, q);
      LessAtEnd(p, x, y);
    } else {
      LessByValue(p, q);
      LessInFront(p, q, [x], [y]);
    }
  }

  // ----- Padded ordinals -----------------------------------------------------------------

  lemma {:induction false} LeadingZeros(zeros: string, s: string)
    requires (forall i :: 0 <= i < |zeros| ==> zeros[i] == '0') && Digits(s)
    ensures Digits(zeros + s) && DecimalValue(zeros + s) == DecimalValue(s)
    decreases |zeros| + |s|
  {
    var all := zeros + s;
    assert Digits(all);
    if s != [] {
      assert all[..|all| - 1] == zeros + s[..|s| - 1];
      LeadingZeros(zeros, s[..|s| - 1]);
    } else if zeros != [] {
      assert all == zeros && all[..|all| - 1] == zeros[..|zeros| - 1] + [];
      LeadingZeros(zeros[..|zeros| - 1], []);
    }
  }

  lemma ShortDecimal(n: nat)
    requires n <= 9999
    ensures |Decimal(n)| <= 4
  {
    assert n < 10 ==> |Decimal(n)| == 1;
    assert |Decimal(n / 1000)| == 1;
    assert n >= 1000 ==> |Decimal(n / 100)| == 2;
    assert n >= 1000 ==> |Decimal(n / 10)| == 3;
    assert 100 <= n < 1000 ==> |Decimal(n / 100)| == 1;
    assert 100 <= n < 1000 ==> |Decimal(n / 10)| == 2;
  }

  lemma PaddedIs(n: nat)
    requires n <= 9999
    ensures |Padded(n)| == 4 && Digits(Padded(n)) && DecimalValue(Padded(n)) == n
  {
    hide Decimal;
    ShortDecimal(n);
    DecimalRoundTrip(n);
    LeadingZeros(seq(4 - |Decimal(n)|, _ => '0'), Decimal(n));
  }

  /** Up to ordinal 9999, file names sort by ordinal, whatever the ids are. */
  lemma NamesInOrder(i: nat, j: nat, a: string, b: string)
    requires i < j <= 9999
    ensures Less(FileName(i, a), FileName(j, b))
  {
    hide Padded;
    PaddedIs(i);
    PaddedIs(j);
    LessByValue(Padded(i), Padded(j));
    LessInFront(Padded(i), Padded(j), "-" + a + ".json", "-" + b + ".json");
    assert FileName(i, a) == Padded(i) + ("-" + a + ".json");
    assert FileName(j, b) == Padded(j) + ("-" + b + ".json");
  }

  /** The file of the ten-thousandth change sorts before that of the one before it. */
  lemma NamesOutOfOrder(a: string, b: string)
    ensures Less(FileName(10000, b), FileName(9999, a))
  {
    assert Decimal(10)[0] == '1';
    assert Decimal(100)[0] == '1' && |Decimal(100)| == 3;
    assert Decimal(1000)[0] == '1' && |Decimal(1000)| == 4;
    assert Decimal(10000)[0] == '1' && |Decimal(10000)| == 5;
    assert Decimal(99)[0] == '9';
    assert Decimal(999)[0] == '9' && |Decimal(999)| == 3;
    assert Decimal(9999)[0] == '9' && |Decimal(9999)| == 4;
    assert FileName(10000, b)[0] == '1' && FileName(9999, a)[0] == '9';
  }

  // ----- Append-only runs ----------------------------------------------------------------

  datatype Addition = Addition(input: StagedChange, freshId: string, now: string)

  function Filled(session: string, a: Addition): StagedChange { FilledIn(a.input, session, a.freshId, a.now) }

  function AddAll(session: string, s: Sess, adds: seq<Addition>): Sess
  {
    if adds == [] then s
    else
      var a := adds[|adds| - 1];
      DoAdd(session, AddAll(session, s, adds[..|adds| - 1]), a.input, a.freshId, a.now).0
  }

  /** The change files in the order of staging. */
  function InOrder(session: string, adds: seq<Addition>): (entries: seq<Entry>)
    ensures |entries| == |adds|
    ensures forall i :: 0 <= i < |adds| ==>
              entries[i] == Entry(FileName(i + 1, Filled(session, adds[i]).changeId), SerializedChange(Filled(session, adds[i])))
  {
    seq(|adds|, i requires 0 <= i < |adds| =>
      Entry(FileName(i + 1, Filled(session, adds[i]).changeId), SerializedChange(Filled(session, adds[i]))))
  }

  lemma PutLast(entries: seq<Entry>, e: Entry)
    requires forall i :: 0 <= i < |entries| ==> Less(entries[i].name, e.name)
    ensures PutEntry(entries, e) == entries + [e]
  {
    hide Less;
    var k := Position(NamesOf(entries), e.name);
    assert k == |entries|;
    assert entries[..k] + [e] + entries[k..] == entries + [e];
  }

  lemma PutSorts(entries: seq<Entry>, e: Entry)
    requires Sorted(NamesOf(entries))
    ensures Sorted(NamesOf(PutEntry(entries, e)))
    ensures |PutEntry(entries, e)| >= |entries|
  {
    hide Less, Position;
    InsertSorted(NamesOf(entries), e.name);
    assert NamesOf(PutEntry(entries, e)) == Insert(NamesOf(entries), e.name);
  }

  lemma {:induction false} AddingSorts(session: string, s: Sess, adds: seq<Addition>)
    requires Active(s) && Sorted(NamesOf(s.entries))
    ensures var t := AddAll(session, s, adds); Active(t) && Sorted(NamesOf(t.entries))
  {
    hide PutEntry, Filled, FilledIn, FileName, SerializedChange, Sorted;
    if adds != [] {
      var front, a := adds[..|adds| - 1], adds[|adds| - 1];
      AddingSorts(session, s, front);
      var t := AddAll(session, s, front);
      var c := FilledIn(a.input, session, a.freshId, a.now);
      PutSorts(t.entries, Entry(FileName(|t.entries| + 1, c.changeId), SerializedChange(c)));
    }
  }

  lemma {:induction false} AddingAppends(session: string, s: Sess, adds: seq<Addition>)
    requires Active(s) && s.entries == [] && |adds| <= 9999
    ensures var t := AddAll(session, s, adds); Active(t) && t.entries == InOrder(session, adds)
  {
    hide PutEntry, FilledIn, FileName, SerializedChange, Less;
    if adds != [] {
      var front, a := adds[..|adds| - 1], adds[|adds| - 1];
      AddingAppends(session, s, front);
      var t := AddAll(session, s, front);
      var c := Filled(session, a);
      var e := Entry(FileName(|adds|, c.changeId), SerializedChange(c));
      forall i | 0 <= i < |t.entries| ensures Less(t.entries[i].name, e.name) {
        NamesInOrder(i + 1, |adds|, Filled(session, adds[i]).changeId, c.changeId);
      }
      PutLast(t.entries, e);
      assert InOrder(session, adds) == InOrder(session, front) + [e];
    }
  }

  /** A session to which changes are only added keeps them in the order they were staged, whatever
      their ids are, exactly up to 9999 changes. */
  lemma StagedInOrder(session: string, s: Sess, adds: seq<Addition>)
    requires Active(s) && s.entries == []
    ensures AddAll(session, s, adds).entries == InOrder(session, adds) <==> |adds| <= 9999
    ensures |adds| <= 9999 ==>
              forall i :: 0 <= i < |adds| ==> LoadAll(AddAll(session, s, adds).entries)[i] == Reload(Filled(session, adds[i]))
  {
    hide AddAll, Less, FileName, Filled, SerializedChange, DeserializedChange;
    if |adds| <= 9999 {
      AddingAppends(session, s, adds);
    } else {
      AddingSorts(session, s, adds);
      NotInOrder(session, adds);
    }
  }

  lemma NotInOrder(session: string, adds: seq<Addition>)
    requires |adds| > 9999
    ensures !Sorted(NamesOf(InOrder(session, adds)))
  {
    hide Less, FileName, Filled, SerializedChange;
    var names := NamesOf(InOrder(session, adds));
    var a, b := Filled(session, adds[9998]).changeId, Filled(session, adds[9999]).changeId;
    NamesOutOfOrder(a, b);
    assert names[9998] == FileName(9999, a) && names[9999] == FileName(10000, b);
    if Sorted(names) {
      LessTransitive(names[9998], names[9999], names[9998]);
      LessIrreflexive(names[9998]);
    }
  }
}

/** The history log and its rotation (patch_service.cpp: rotate_file_if_needed, append_history). */
module History {
  import opened Text

  /** The live file, if there is one, and the rotated files by number, 1 the newest.  A file is the
      list of its records, each with its newline. */
  datatype Log = Log(live: Option<seq<string>>, rotated: map<nat, seq<string>>)

  const EMPTY := Log(None, map[])

  function Size(records: seq<string>): nat
  {
    if records == [] then 0 else Size(records[..|records| - 1]) + |records[|records| - 1]|
  }

  /** A file of at least `maxBytes` is rotated; 0 switches rotation off. */
  predicate Full(log: Log, maxBytes: nat, keep: nat)
  {
    maxBytes > 0 && keep > 0 && log.live.Some? && Size(log.live.value) >= maxBytes
  }

  function Lookup(files: map<nat, seq<string>>, k: nat): Option<seq<string>>
  {
    if k in files then Some(files[k]) else None
  }

  /** What number k holds after a rotation: the live file as 1, up to `keep` what was one number below,
      and beyond `keep` what was there before. */
  function Moved(rotated: map<nat, seq<string>>, live: seq<string>, keep: nat, k: nat): Option<seq<string>>
  {
    if k == 0 || k > keep then Lookup(rotated, k) else if k == 1 then Some(live) else Lookup(rotated, k - 1)
  }

  function Numbers(n: nat): (s: set<nat>)
    ensures forall k: nat :: k in s <==> k <= n
  {
    if n == 0 then {0} else Numbers(n - 1) + {n}
  }

  function Shifted(rotated: map<nat, seq<string>>, live: seq<string>, keep: nat): (out: map<nat, seq<string>>)
    ensures forall k :: Lookup(out, k) == Moved(rotated, live, keep, k)
  {
    map k | k in rotated.Keys + Numbers(keep) && Moved(rotated, live, keep, k).Some? ::
      Moved(rotated, live, keep, k).value
  }

  function Rotate(log: Log, maxBytes: nat, keep: nat): Log
  {
    if Full(log, maxBytes, keep) then Log(None, Shifted(log.rotated, log.live.value, keep)) else log
  }

  /** append_history */
  function Append(log: Log, maxBytes: nat, keep: nat, entry: string): Log
  {
    var next := Rotate(log, maxBytes, keep);
    next.(live := Some(next.live.GetOr([]) + [entry]))
  }

  function AppendAll(log: Log, maxBytes: nat, keep: nat, records: seq<string>): Log
  {
    if records == [] then log
    else Append(AppendAll(log, maxBytes, keep, records[..|records| - 1]), maxBytes, keep, records[|records| - 1])
  }

  // ----- The rotated files in one piece --------------------------------------------------

  function FileOf(rotated: map<nat, seq<string>>, i: nat): seq<string> { if i in rotated then rotated[i] else [] }

  /** The records of the rotated files i, i - 1, ..., 1, oldest first. */
  function RotatedFrom(rotated: map<nat, seq<string>>, i: nat): seq<string>
  {
    if i == 0 then [] else FileOf(rotated, i) + RotatedFrom(rotated, i - 1)
  }

  /** Everything the log still holds, oldest first. */
  function Retained(log: Log, keep: nat): seq<string>
  {
    RotatedFrom(log.rotated, keep) + log.live.GetOr([])
  }

  /** The files numbered above `keep`, left behind under a larger setting: the log never touches them. */
  ghost predicate SameBeyond(a: Log, b: Log, keep: nat)
  {
    forall k :: k > keep ==> Lookup(a.rotated, k) == Lookup(b.rotated, k)
  }

  predicate Suffix(s: seq<string>, all: seq<string>)
  {
    |s| <= |all| && all[|all| - |s|..] == s
  }

  lemma FileMoved(rotated: map<nat, seq<string>>, live: seq<string>, keep: nat, i: nat)
    requires i < keep
    ensures FileOf(Shifted(rotated, live, keep), i + 1) == if i == 0 then live else FileOf(rotated, i)
  {
    hide Shifted;
    assert Lookup(Shifted(rotated, live, keep), i + 1) == Moved(rotated, live, keep, i + 1);
  }

  lemma RotatedStep(rotated: map<nat, seq<string>>, i: nat)
    ensures RotatedFrom(rotated, i + 1) == FileOf(rotated, i + 1) + RotatedFrom(rotated, i)
    ensures RotatedFrom(rotated, 0) == []
  {
  }

  lemma {:induction false} ShiftedFrom(rotated: map<nat, seq<string>>, live: seq<string>, keep: nat, i: nat)
    requires i < keep
    ensures RotatedFrom(Shifted(rotated, live, keep), i + 1) == RotatedFrom(rotated, i) + live
    decreases i
  {
    hide RotatedFrom, FileOf, Shifted;
    var now := Shifted(rotated, live, keep);
    FileMoved(rotated, live, keep, i);
    RotatedStep(now, i);
    if i == 0 {
      RotatedStep(now, 0);
      RotatedStep(rotated, 0);
      assert live + [] == [] + live;
    } else {
      ShiftedFrom(rotated, live, keep, i - 1);
      RotatedStep(rotated, i - 1);
      assert FileOf(rotated, i) + (RotatedFrom(rotated, i - 1) + live) == FileOf(rotated, i) + RotatedFrom(rotated, i - 1) + live;
    }
  }

  lemma SuffixConcat(a: seq<string>, b: seq<string>, tail: seq<string>)
    requires Suffix(a, b)
    ensures Suffix(a + tail, b + tail)
  {
    assert b == b[..|b| - |a|] + a;
    assert b + tail == b[..|b| - |a|] + (a + tail);
  }

  lemma SuffixTransitive(a: seq<string>, b: seq<string>, c: seq<string>)
    requires Suffix(a, b) && Suffix(b, c)
    ensures Suffix(a, c)
  {
  }

  /** A rotation loses the oldest rotated file, if there are `keep` of them, and nothing else. */
  lemma RotateLoses(log: Log, maxBytes: nat, keep: nat)
    ensures var next := Rotate(log, maxBytes, keep);
            Retained(log, keep) ==
            (if Full(log, maxBytes, keep) then FileOf(log.rotated, keep) else []) + Retained(next, keep)
    ensures SameBeyond(log, Rotate(log, maxBytes, keep), keep)
  {
    hide RotatedFrom, FileOf, Shifted, Full, Lookup;
    var next := Rotate(log, maxBytes, keep);
    if Full(log, maxBytes, keep) {
      FullKeeps(log, maxBytes, keep);
      var live := log.live.value;
      ShiftedFrom(log.rotated, live, keep, keep - 1);
      LastRotated(log.rotated, keep);
      assert FileOf(log.rotated, keep) + RotatedFrom(log.rotated, keep - 1) + live ==
             FileOf(log.rotated, keep) + (RotatedFrom(log.rotated, keep - 1) + live);
    } else {
      assert [] + Retained(log, keep) == Retained(log, keep);
    }
  }

  lemma FullKeeps(log: Log, maxBytes: nat, keep: nat)
    requires Full(log, maxBytes, keep)
    ensures keep > 0 && log.live.Some?
  {
  }

  lemma LastRotated(rotated: map<nat, seq<string>>, keep: nat)
    requires keep > 0
    ensures RotatedFrom(rotated, keep) == FileOf(rotated, keep) + RotatedFrom(rotated, keep - 1)
  {
  }

  lemma SuffixOfTail(a: seq<string>, b: seq<string>)
    ensures Suffix(b, a + b)
  {
  }

  lemma AppendStep(log: Log, maxBytes: nat, keep: nat, entry: string, all: seq<string>)
    requires Suffix(Retained(log, keep), all)
    ensures var next := Append(log, maxBytes, keep, entry);
            SameBeyond(log, next, keep) && Suffix(Retained(next, keep), all + [entry])
  {
    hide Rotate, Suffix, RotatedFrom, FileOf;
    var mid, next := Rotate(log, maxBytes, keep), Append(log, maxBytes, keep, entry);
    RotateLoses(log, maxBytes, keep);
    var lost := if Full(log, maxBytes, keep) then FileOf(log.rotated, keep) else [];
    SuffixOfTail(lost, Retained(mid, keep));
    SuffixTransitive(Retained(mid, keep), Retained(log, keep), all);
    SuffixConcat(Retained(mid, keep), all, [entry]);
    assert Retained(next, keep) == Retained(mid, keep) + [entry];
  }

  /** In every run the log holds a suffix of everything it ever held or was given, the newest record
      included, and never creates or touches a file numbered above `keep`. */
  lemma {:induction false} HistoryIsSuffix(log: Log, maxBytes: nat, keep: nat, records: seq<string>)
    ensures var next := AppendAll(log, maxBytes, keep, records);
            SameBeyond(log, next, keep) && Suffix(Retained(next, keep), Retained(log, keep) + records) &&
            (records != [] ==> next.live.Some? && next.live.value != [] &&
                               next.live.value[|next.live.value| - 1] == records[|records| - 1])
  {
    hide Rotate, Suffix, Retained, Lookup;
    if records == [] {
      assert Retained(log, keep) + records == Retained(log, keep);
      SuffixOfTail([], Retained(log, keep));
      assert [] + Retained(log, keep) == Retained(log, keep);
    } else {
      var front, last := records[..|records| - 1], records[|records| - 1];
      HistoryIsSuffix(log, maxBytes, keep, front);
      AppendStep(AppendAll(log, maxBytes, keep, front), maxBytes, keep, last, Retained(log, keep) + front);
      assert Retained(log, keep) + front + [last] == Retained(log, keep) + records;
    }
  }

  /** With rotation switched off nothing is ever lost. */
  lemma {:induction false} UnrotatedKeepsAll(log: Log, maxBytes: nat, keep: nat, records: seq<string>)
    requires maxBytes == 0 || keep == 0
    ensures AppendAll(log, maxBytes, keep, records).rotated == log.rotated
    ensures AppendAll(log, maxBytes, keep, records).live.GetOr([]) == log.live.GetOr([]) + records
  {
    if records != [] {
      UnrotatedKeepsAll(log, maxBytes, keep, records[..|records| - 1]);
      assert records == records[..|records| - 1] + [records[|records| - 1]];
    }
  }

  // ----- When the log rotates ------------------------------------------------------------

  /** Records that were not yet enough for a rotation when the last of them came. */
  ghost predicate Short(records: seq<string>, maxBytes: nat)
  {
    records != [] && Size(records[..|records| - 1]) < maxBytes
  }

  /** The log rotates in time and not before: every rotated file has reached the limit, with its last record;
      the live file had not, before its last. */
  ghost predicate InMeasure(log: Log, maxBytes: nat, keep: nat)
  {
    (log.live.Some? ==> Short(log.live.value, maxBytes)) &&
    forall k :: k <= keep && k in log.rotated ==> Short(log.rotated[k], maxBytes) && Size(log.rotated[k]) >= maxBytes
  }

  lemma RotatedInMeasure(log: Log, maxBytes: nat, keep: nat)
    requires maxBytes > 0 && keep > 0 && InMeasure(log, maxBytes, keep)
    ensures var next := Rotate(log, maxBytes, keep);
            InMeasure(next, maxBytes, keep) && (next.live.Some? ==> Size(next.live.value) < maxBytes)
  {
    hide Size, Short, Shifted;
    var next := Rotate(log, maxBytes, keep);
    if Full(log, maxBytes, keep) {
      forall k | k <= keep && k in next.rotated ensures Short(next.rotated[k], maxBytes) && Size(next.rotated[k]) >= maxBytes {
        assert Lookup(next.rotated, k) == Moved(log.rotated, log.live.value, keep, k);
      }
    }
  }

  lemma AppendInMeasure(log: Log, maxBytes: nat, keep: nat, entry: string)
    requires maxBytes > 0 && keep > 0 && InMeasure(log, maxBytes, keep)
    ensures InMeasure(Append(log, maxBytes, keep, entry), maxBytes, keep)
  {
    hide Rotate, Size;
    var next := Rotate(log, maxBytes, keep);
    RotatedInMeasure(log, maxBytes, keep);
    NothingYet();
    var records := next.live.GetOr([]) + [entry];
    assert records[..|records| - 1] == next.live.GetOr([]);
  }

  lemma NothingYet()
    ensures Size([]) == 0
  {
  }

  /** In every run from an empty log, every rotated file is the shortest run of records that reaches the limit,
      and the live file is not yet one, but for its last record. */
  lemma {:induction false} RotatesInTime(log: Log, maxBytes: nat, keep: nat, records: seq<string>)
    requires maxBytes > 0 && keep > 0 && InMeasure(log, maxBytes, keep)
    ensures InMeasure(AppendAll(log, maxBytes, keep, records), maxBytes, keep)
    ensures InMeasure(EMPTY, maxBytes, keep)
  {
    hide InMeasure, Append;
    EmptyInMeasure(maxBytes, keep);
    if records != [] {
      RotatesInTime(log, maxBytes, keep, records[..|records| - 1]);
      AppendInMeasure(AppendAll(log, maxBytes, keep, records[..|records| - 1]), maxBytes, keep, records[|records| - 1]);
    }
  }

  lemma EmptyInMeasure(maxBytes: nat, keep: nat)
    ensures InMeasure(EMPTY, maxBytes, keep)
  {
  }

  /** The size of a file is that of its records, end to end. */
  lemma {:induction false} SizeOfAll(a: seq<string>, b: seq<string>)
    ensures Size(a + b) == Size(a) + Size(b)
    decreases |b|
  {
    if b == [] {
      assert a + b == a;
    } else {
      assert (a + b)[..|a + b| - 1] == a + b[..|b| - 1];
      SizeOfAll(a, b[..|b| - 1]);
    }
  }

  // ----- The log as it is written --------------------------------------------------------

  /** What the number k holds once the files numbered i + 1 to `keep` are moved up. */
  function Partly(was: map<nat, seq<string>>, i: nat, keep: nat, k: nat): Option<seq<string>>
  {
    if k <= i || k > keep then Lookup(was, k) else if k == i + 1 then None else Lookup(was, k - 1)
  }

  lemma FirstOut(was: map<nat, seq<string>>, keep: nat)
    requires keep > 0
    ensures forall k :: Lookup(was - {keep}, k) == Partly(was, keep - 1, keep, k)
  {
  }

  lemma NextUp(was: map<nat, seq<string>>, now: map<nat, seq<string>>, i: nat, keep: nat)
    requires 1 <= i < keep && forall k :: Lookup(now, k) == Partly(was, i, keep, k)
    ensures var next := if i in now then now[i + 1 := now[i]] - {i} else now;
            forall k :: Lookup(next, k) == Partly(was, i - 1, keep, k)
  {
    assert Lookup(now, i) == Partly(was, i, keep, i);
    assert Lookup(now, i + 1) == Partly(was, i, keep, i + 1);
    var next := if i in now then now[i + 1 := now[i]] - {i} else now;
    forall k ensures Lookup(next, k) == Partly(was, i - 1, keep, k) {
      assert Lookup(now, k) == Partly(was, i, keep, k);
    }
  }

  lemma RoomyIsShifted(was: map<nat, seq<string>>, now: map<nat, seq<string>>, live: seq<string>, keep: nat)
    requires keep > 0 && forall k :: Lookup(now, k) == Partly(was, 0, keep, k)
    ensures now[1 := live] == Shifted(was, live, keep)
  {
    hide Shifted;
    var next := now[1 := live];
    forall k: nat ensures Lookup(next, k) == Lookup(Shifted(was, live, keep), k) {
      assert Lookup(now, k) == Partly(was, 0, keep, k);
      assert Lookup(Shifted(was, live, keep), k) == Moved(was, live, keep, k);
    }
    SameLookups(next, Shifted(was, live, keep));
  }

  lemma SameLookups(a: map<nat, seq<string>>, b: map<nat, seq<string>>)
    requires forall k: nat :: Lookup(a, k) == Lookup(b, k)
    ensures a == b
  {
    forall k ensures k in a <==> k in b {
      assert Lookup(a, k) == Lookup(b, k);
    }
    forall k | k in a ensures a[k] == b[k] {
      assert Lookup(a, k) == Lookup(b, k);
    }
  }

  class HistoryLog {
    const maxBytes: nat
    const keep: nat
    var live: Option<seq<string>>
    var rotated: map<nat, seq<string>>

    function Snap(): Log
      reads this
    {
      Log(live, rotated)
    }

    constructor (maxBytes: nat, keep: nat)
      ensures Snap() == EMPTY && this.maxBytes == maxBytes && this.keep == keep
    {
      this.maxBytes, this.keep, live, rotated := maxBytes, keep, None, map[];
    }

    /** The loop of rotate_file_if_needed: the oldest file is removed, each other one renamed to the
        next number, from the oldest on. */
    method MakeRoom()
      requires keep > 0
      modifies this`rotated
      ensures forall k :: Lookup(rotated, k) == Partly(old(rotated), 0, keep, k)
    {
      hide Lookup, Partly;
      ghost var was := rotated;
      var i := keep;
      while i >= 1
        invariant 0 <= i <= keep
        invariant if i == keep then rotated == was else forall k :: Lookup(rotated, k) == Partly(was, i, keep, k)
      {
        if i == keep {
          FirstOut(was, keep);
          rotated := rotated - {i};
        } else {
          NextUp(was, rotated, i, keep);
          if i in rotated { rotated := rotated[i + 1 := rotated[i]] - {i}; }
        }
        i := i - 1;
      }
    }

    /** rotate_file_if_needed */
    method RotateIfNeeded()
      modifies this
      ensures Snap() == Rotate(old(Snap()), maxBytes, keep)
    {
      hide Partly, Shifted, Size, Lookup;
      if maxBytes == 0 || keep == 0 { return; }
      if live.None? { return; }
      if Size(live.value) < maxBytes { return; }
      MakeRoom();
      RoomyIsShifted(old(rotated), rotated, live.value, keep);
      rotated := rotated[1 := live.value];
      live := None;
    }

    /** append_history */
    method AppendRecord(entry: string)
      modifies this
      ensures Snap() == Append(old(Snap()), maxBytes, keep, entry)
    {
      hide Rotate;
      RotateIfNeeded();
      live := Some(live.GetOr([]) + [entry]);
    }
  }
}

/** Half-open time intervals in whole seconds, and lists of them measured point by point. */
module TimeSlots {

  const DAY: int := 86400

  datatype TimeSlot = TimeSlot(start: int, end: int) {
    predicate Proper() {
      start < end
    }

    predicate Contains(t: int) {
      start <= t < end
    }

    /** Whole minutes, rounded towards zero. */
    function DurationMinutes(): int {
      if start <= end then (end - start) / 60 else -((start - end) / 60)
    }

    predicate Overlaps(other: TimeSlot) {
      start < other.end && other.start < end
    }

    /** Monday is 1 and Sunday is 7; day 7 is a Sunday. */
    function Weekday(): int {
      IsoWeekday(start / DAY)
    }
  }

  function IsoWeekday(day: int): int {
    if day % 7 == 0 then 7 else day % 7
  }

  /** How many slots of the list contain the instant `t`. */
  function Load(ss: seq<TimeSlot>, t: int): nat {
    if ss == [] then 0 else (if ss[0].Contains(t) then 1 else 0) + Load(ss[1..], t)
  }

  /** The seconds of all slots together. */
  function TotalTime(ss: seq<TimeSlot>): int {
    if ss == [] then 0 else (ss[0].end - ss[0].start) + TotalTime(ss[1..])
  }

  predicate AllProper(ss: seq<TimeSlot>) {
    forall s :: s in ss ==> s.Proper()
  }

  lemma {:induction false} LoadConcat(a: seq<TimeSlot>, b: seq<TimeSlot>, t: int)
    ensures Load(a + b, t) == Load(a, t) + Load(b, t)
    ensures TotalTime(a + b) == TotalTime(a) + TotalTime(b)
  {
    if a == [] {
      assert a + b == b;
    } else {
      assert (a + b)[1..] == a[1..] + b;
      LoadConcat(a[1..], b, t);
    }
  }

  lemma LoadSplit(ss: seq<TimeSlot>, i: nat, t: int)
    requires i < |ss|
    ensures Load(ss, t) == Load(ss[..i] + ss[i + 1..], t) + Load([ss[i]], t)
    ensures TotalTime(ss) == TotalTime(ss[..i] + ss[i + 1..]) + TotalTime([ss[i]])
  {
    assert ss == ss[..i] + ([ss[i]] + ss[i + 1..]);
    LoadConcat(ss[..i], [ss[i]] + ss[i + 1..], t);
    LoadConcat([ss[i]], ss[i + 1..], t);
    LoadConcat(ss[..i], ss[i + 1..], t);
  }

  lemma {:induction false} LoadPositive(ss: seq<TimeSlot>, t: int)
    ensures Load(ss, t) > 0 <==> exists s :: s in ss && s.Contains(t)
  {
    if ss != [] {
      LoadPositive(ss[1..], t);
      if s :| s in ss[1..] && s.Contains(t) {
        assert s in ss;
      }
      if s :| s in ss && s.Contains(t) {
        assert s == ss[0] || s in ss[1..];
      }
    }
  }

  /** Two slots of one list that share an instant load it twice. */
  lemma LoadTwice(ss: seq<TimeSlot>, i: nat, j: nat, t: int)
    requires i < j < |ss| && ss[i].Contains(t) && ss[j].Contains(t)
    ensures Load(ss, t) >= 2
  {
    assert ss == ss[..j] + ss[j..];
    LoadConcat(ss[..j], ss[j..], t);
    assert ss[..j][i] == ss[i] && ss[j..][0] == ss[j];
    LoadPositive(ss[..j], t);
    LoadPositive(ss[j..], t);
  }

  // ---- Sorting: stable, by start, or workdays before weekends and then by start

  predicate NotAfter(a: TimeSlot, b: TimeSlot, workdaysFirst: bool) {
    var early, late := a.Weekday() <= 5, b.Weekday() <= 5;
    if workdaysFirst && early != late then early else a.start <= b.start
  }

  function Insert(x: TimeSlot, ss: seq<TimeSlot>, workdaysFirst: bool): seq<TimeSlot> {
    if ss == [] || NotAfter(x, ss[0], workdaysFirst) then [x] + ss
    else [ss[0]] + Insert(x, ss[1..], workdaysFirst)
  }

  function Sort(ss: seq<TimeSlot>, workdaysFirst: bool): seq<TimeSlot> {
    if ss == [] then [] else Insert(ss[0], Sort(ss[1..], workdaysFirst), workdaysFirst)
  }

  predicate Sorted(ss: seq<TimeSlot>, workdaysFirst: bool) {
    forall i, j :: 0 <= i < j < |ss| ==> NotAfter(ss[i], ss[j], workdaysFirst)
  }

  lemma {:induction false} InsertMultiset(x: TimeSlot, ss: seq<TimeSlot>, workdaysFirst: bool)
    ensures multiset(Insert(x, ss, workdaysFirst)) == multiset(ss) + multiset{x}
  {
    if ss != [] && !NotAfter(x, ss[0], workdaysFirst) {
      InsertMultiset(x, ss[1..], workdaysFirst);
      assert ss == [ss[0]] + ss[1..];
    }
  }

  lemma {:induction false} InsertSorted(x: TimeSlot, ss: seq<TimeSlot>, workdaysFirst: bool)
    requires Sorted(ss, workdaysFirst)
    ensures Sorted(Insert(x, ss, workdaysFirst), workdaysFirst)
  {
    if ss != [] && !NotAfter(x, ss[0], workdaysFirst) {
      InsertSorted(x, ss[1..], workdaysFirst);
      var rest := Insert(x, ss[1..], workdaysFirst);
      InsertMultiset(x, ss[1..], workdaysFirst);
      SameMembers(rest, ss[1..] + [x]);
      forall s | s in rest ensures NotAfter(ss[0], s, workdaysFirst) {
        assert s in ss[1..] + [x];
      }
      SortedCons(ss[0], rest, workdaysFirst);
    }
  }

  lemma SortedCons(x: TimeSlot, ss: seq<TimeSlot>, workdaysFirst: bool)
    requires Sorted(ss, workdaysFirst) && forall s :: s in ss ==> NotAfter(x, s, workdaysFirst)
    ensures Sorted([x] + ss, workdaysFirst)
  {
  }

  lemma {:induction false} SortFacts(ss: seq<TimeSlot>, workdaysFirst: bool)
    ensures multiset(Sort(ss, workdaysFirst)) == multiset(ss)
    ensures Sorted(Sort(ss, workdaysFirst), workdaysFirst)
  {
    if ss != [] {
      SortFacts(ss[1..], workdaysFirst);
      InsertMultiset(ss[0], Sort(ss[1..], workdaysFirst), workdaysFirst);
      InsertSorted(ss[0], Sort(ss[1..], workdaysFirst), workdaysFirst);
      assert ss == [ss[0]] + ss[1..];
    }
  }

  lemma SortMembers(ss: seq<TimeSlot>, workdaysFirst: bool)
    ensures forall s :: s in Sort(ss, workdaysFirst) <==> s in ss
    ensures |Sort(ss, workdaysFirst)| == |ss|
  {
    SortFacts(ss, workdaysFirst);
    SameMembers(Sort(ss, workdaysFirst), ss);
  }

  lemma SameMembers(a: seq<TimeSlot>, b: seq<TimeSlot>)
    requires multiset(a) == multiset(b)
    ensures forall s :: s in a <==> s in b
    ensures |a| == |b|
  {
    assert forall s :: s in a <==> s in multiset(a);
    assert |multiset(a)| == |multiset(b)|;
  }

  lemma {:induction false} InsertLoad(x: TimeSlot, ss: seq<TimeSlot>, workdaysFirst: bool, t: int)
    ensures Load(Insert(x, ss, workdaysFirst), t) == Load(ss, t) + Load([x], t)
    ensures TotalTime(Insert(x, ss, workdaysFirst)) == TotalTime(ss) + TotalTime([x])
  {
    LoadConcat([x], ss, t);
    if ss != [] && !NotAfter(x, ss[0], workdaysFirst) {
      InsertLoad(x, ss[1..], workdaysFirst, t);
      LoadConcat([ss[0]], Insert(x, ss[1..], workdaysFirst), t);
      assert ss == [ss[0]] + ss[1..];
      LoadConcat([ss[0]], ss[1..], t);
    }
  }

  lemma {:induction false} SortLoad(ss: seq<TimeSlot>, workdaysFirst: bool, t: int)
    ensures Load(Sort(ss, workdaysFirst), t) == Load(ss, t)
    ensures TotalTime(Sort(ss, workdaysFirst)) == TotalTime(ss)
  {
    if ss != [] {
      SortLoad(ss[1..], workdaysFirst, t);
      InsertLoad(ss[0], Sort(ss[1..], workdaysFirst), workdaysFirst, t);
      assert ss == [ss[0]] + ss[1..];
      LoadConcat([ss[0]], ss[1..], t);
    }
  }
}

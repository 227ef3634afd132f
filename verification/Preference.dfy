/** How far workdays are preferred: for which free slots no task is planned on a weekend while a workday has room. */
module Preference {
  import opened Text
  import opened TimeSlots
  import opened FreeTime
  import opened Planner
  import opened PlannerEngine

  predicate Workday(slot: TimeSlot) {
    slot.Weekday() <= 5
  }

  function Day(slot: TimeSlot): int {
    slot.start / DAY
  }

  /** The slot ends on the day it starts. */
  predicate OneDay(slot: TimeSlot) {
    slot.end <= (Day(slot) + 1) * DAY
  }

  ghost predicate AllOneDay(ss: seq<TimeSlot>) {
    forall s :: s in ss ==> OneDay(s)
  }

  /** A task that fits some workday slot is not placed on a weekend. */
  ghost predicate PrefersOne(cfg: PlanningConfig, free: seq<TimeSlot>, task: RankedTask) {
    var i := FirstFit(free, cfg.Need(task));
    i < |free| && !Workday(free[i]) ==> forall f :: f in free && Workday(f) ==> !Fits(f, cfg.Need(task))
  }

  /** None of the tasks, placed one after the other, goes to a weekend while a workday slot fits it. */
  ghost predicate Prefers(cfg: PlanningConfig, free: seq<TimeSlot>, tasks: seq<RankedTask>)
    decreases |tasks|
  {
    tasks == [] || (PrefersOne(cfg, free, tasks[0]) && Prefers(cfg, PlaceOne(cfg, free, tasks[0]).free, tasks[1..]))
  }

  // ---- The order of the free slots

  /** A task takes the first slot, in the order the list is sorted by, among all that fit it. */
  lemma PreferredSlot(cfg: PlanningConfig, free: seq<TimeSlot>, task: RankedTask, workdaysFirst: bool)
    requires Sorted(free, workdaysFirst) && PlaceOne(cfg, free, task).start.Some?
    ensures exists f ::
              && f in free && Fits(f, cfg.Need(task)) && PlaceOne(cfg, free, task).start == Some(f.start)
              && forall g :: g in free && Fits(g, cfg.Need(task)) ==> NotAfter(f, g, workdaysFirst)
  {
    var need := cfg.Need(task);
    var f := free[FirstFit(free, need)];
    forall g | g in free && Fits(g, need) ensures NotAfter(f, g, workdaysFirst) {
      var j :| 0 <= j < |free| && free[j] == g;
    }
  }

  /** A list without one of its slots keeps its order. */
  lemma SortedWithout(free: seq<TimeSlot>, i: nat, workdaysFirst: bool)
    requires i < |free| && Sorted(free, workdaysFirst)
    ensures Sorted(free[..i] + free[i + 1..], workdaysFirst)
  {
  }

  /** What is left of a slot behind `minutes` of it. */
  function Remainder(slot: TimeSlot, minutes: int): TimeSlot {
    TimeSlot(slot.start + minutes * 60, slot.end)
  }

  /** A slot from which a task of `minutes` leaves enough to be put back. */
  predicate LeavesRest(cfg: PlanningConfig, slot: TimeSlot, minutes: int) {
    slot.DurationMinutes() - minutes >= cfg.minBlock
  }

  /** The slots a placed task leaves, before they are sorted. */
  function SlotsLeft(cfg: PlanningConfig, free: seq<TimeSlot>, task: RankedTask): seq<TimeSlot>
    requires FirstFit(free, cfg.Need(task)) < |free|
  {
    var need := cfg.Need(task);
    var i := FirstFit(free, need);
    free[..i] + free[i + 1..] + (if LeavesRest(cfg, free[i], need) then [Remainder(free[i], need)] else [])
  }

  /** Placing a task sorts by start if, and only if, it puts a remainder back. */
  lemma PlacedLeaves(cfg: PlanningConfig, free: seq<TimeSlot>, task: RankedTask)
    requires cfg.Valid() && AllProper(free) && FirstFit(free, cfg.Need(task)) < |free|
    ensures var i, p := FirstFit(free, cfg.Need(task)), PlaceOne(cfg, free, task);
            && p.start == Some(free[i].start)
            && p.free == if LeavesRest(cfg, free[i], cfg.Need(task)) then Sort(SlotsLeft(cfg, free, task), false)
                         else SlotsLeft(cfg, free, task)
  {
    hide TimeSlot.DurationMinutes, Sort, LeavesRest, FirstFit, Fits;
    var i, need := FirstFit(free, cfg.Need(task)), cfg.Need(task);
    assert free[i] in free;
    assert Remainder(free[i], need) == TimeSlot(cfg.Block(task, free[i].start).end, free[i].end);
    RestPutBack(cfg, free[i], need);
    assert free[..i] + free[i + 1..] + [] == free[..i] + free[i + 1..];
  }

  lemma RestPutBack(cfg: PlanningConfig, slot: TimeSlot, minutes: int)
    requires cfg.Valid() && slot.Proper() && Fits(slot, minutes)
    ensures var rest := Remainder(slot, minutes);
            rest.Proper() && rest.DurationMinutes() >= cfg.minBlock <==> LeavesRest(cfg, slot, minutes)
  {
    RestMinutes(slot, minutes);
  }

  lemma RestMinutes(slot: TimeSlot, minutes: int)
    requires slot.Proper() && slot.DurationMinutes() >= minutes
    ensures Remainder(slot, minutes).DurationMinutes() == slot.DurationMinutes() - minutes
    ensures slot.DurationMinutes() > minutes ==> Remainder(slot, minutes).Proper()
  {
  }

  /** Every workday slot starts before every weekend slot. */
  ghost predicate WorkdaysEarlier(ss: seq<TimeSlot>) {
    forall s, t :: s in ss && t in ss && Workday(t) && !Workday(s) ==> t.start < s.start
  }

  /** A list by start is one with workdays in front exactly when they start before. */
  lemma BothOrders(ss: seq<TimeSlot>)
    requires Sorted(ss, false)
    ensures Sorted(ss, true) <==> WorkdaysEarlier(ss)
  {
    if Sorted(ss, true) {
      forall s, t | s in ss && t in ss && Workday(t) && !Workday(s) ensures t.start < s.start {
        var i :| 0 <= i < |ss| && ss[i] == s;
        var j :| 0 <= j < |ss| && ss[j] == t;
        assert j < i;
        assert t.start != s.start;
      }
    }
  }

  lemma SameEarlier(ss: seq<TimeSlot>)
    ensures WorkdaysEarlier(Sort(ss, false)) <==> WorkdaysEarlier(ss)
  {
    hide Workday, Sort;
    SortMembers(ss, false);
  }

  /**
   Placing a task keeps workdays in front of weekends exactly when no remainder of at least the
   minimum block is put back, or every workday slot then left starts before every weekend slot left.
   */
  lemma PreferenceKept(cfg: PlanningConfig, free: seq<TimeSlot>, task: RankedTask)
    requires cfg.Valid() && AllProper(free) && Sorted(free, true)
    ensures var i := FirstFit(free, cfg.Need(task));
            Sorted(PlaceOne(cfg, free, task).free, true)
            <==> i == |free| || !LeavesRest(cfg, free[i], cfg.Need(task)) || WorkdaysEarlier(SlotsLeft(cfg, free, task))
  {
    hide PlaceOne, LeavesRest, WorkdaysEarlier, FirstFit, Sort, Sorted, AllProper, Fits;
    var i := FirstFit(free, cfg.Need(task));
    if i == |free| {
      NotPlaced(cfg, free, task);
    } else {
      PlacedLeaves(cfg, free, task);
      var left := SlotsLeft(cfg, free, task);
      if LeavesRest(cfg, free[i], cfg.Need(task)) {
        SortFacts(left, false);
        SameEarlier(left);
        BothOrders(Sort(left, false));
      } else {
        SortedWithout(free, i, true);
        assert left == free[..i] + free[i + 1..];
      }
    }
  }

  // ---- When no task list spoils the preference

  /** A workday slot and a weekend slot of an earlier day that both have room for the shortest tasks. */
  predicate Tempting(cfg: PlanningConfig, weekend: TimeSlot, workday: TimeSlot) {
    && Workday(workday) && !Workday(weekend) && Day(weekend) < Day(workday)
    && Fits(workday, cfg.Least()) && Fits(weekend, cfg.Least())
  }

  /** A task of `n` minutes that takes slot `c` leaves slot `x` with room for the shortest tasks. */
  predicate Spares(cfg: PlanningConfig, free: seq<TimeSlot>, c: nat, n: int, x: nat)
    requires c < |free| && x < |free|
  {
    if x < c then !Fits(free[x], n)
    else if x == c then Fits(free[c], n + cfg.Least())
    else true
  }

  /**
   Some slot `c` can take a task of `n` minutes and have a remainder put back, while a weekend slot
   and a workday slot of a later day both keep room for the shortest tasks.
   */
  predicate SpoiledBy(cfg: PlanningConfig, free: seq<TimeSlot>, a: nat, b: nat, c: nat, n: int) {
    && a < |free| && b < |free| && c < |free|
    && Tempting(cfg, free[b], free[a])
    && n >= cfg.Least() && LeavesRest(cfg, free[c], n)
    && Spares(cfg, free, c, n, a) && Spares(cfg, free, c, n, b)
  }

  ghost predicate Spoilable(cfg: PlanningConfig, free: seq<TimeSlot>) {
    exists a: nat, b: nat, c: nat, n :: SpoiledBy(cfg, free, a, b, c, n)
  }

  ghost predicate NoneTempting(cfg: PlanningConfig, free: seq<TimeSlot>) {
    forall s, t :: s in free && t in free ==> !Tempting(cfg, s, t)
  }

  lemma RestDay(slot: TimeSlot, minutes: int)
    requires slot.Proper() && OneDay(slot) && 0 <= minutes < slot.DurationMinutes()
    ensures var rest := Remainder(slot, minutes);
            rest.Proper() && OneDay(rest) && Day(rest) == Day(slot) && (Workday(rest) <==> Workday(slot))
  {
    RestMinutes(slot, minutes);
    assert Day(slot) * DAY <= slot.start <= slot.start + minutes * 60 < slot.end <= (Day(slot) + 1) * DAY;
    SameDay(slot.start + minutes * 60, Day(slot));
  }

  lemma SameDay(t: int, day: int)
    requires day * DAY <= t < (day + 1) * DAY
    ensures t / DAY == day
  {
  }

  lemma NeedIsLeast(cfg: PlanningConfig, task: RankedTask)
    ensures cfg.Need(task) >= cfg.Least()
  {
  }

  lemma LeftMembers(cfg: PlanningConfig, free: seq<TimeSlot>, task: RankedTask, s: TimeSlot)
    requires FirstFit(free, cfg.Need(task)) < |free|
    requires s in SlotsLeft(cfg, free, task)
    ensures var i, need := FirstFit(free, cfg.Need(task)), cfg.Need(task);
            || (exists k: nat :: k < |free| && k != i && free[k] == s)
            || (LeavesRest(cfg, free[i], need) && s == Remainder(free[i], need))
  {
    var i, need := FirstFit(free, cfg.Need(task)), cfg.Need(task);
    var left := SlotsLeft(cfg, free, task);
    var j :| 0 <= j < |left| && left[j] == s;
    if j < i {
      assert free[j] == s;
    } else if j < |free| - 1 {
      assert free[j + 1] == s;
    }
  }

  lemma LeftProper(cfg: PlanningConfig, free: seq<TimeSlot>, task: RankedTask)
    requires cfg.Valid() && AllProper(free) && AllOneDay(free)
    ensures AllProper(PlaceOne(cfg, free, task).free) && AllOneDay(PlaceOne(cfg, free, task).free)
  {
    var i, need := FirstFit(free, cfg.Need(task)), cfg.Need(task);
    PlaceOneProper(cfg, free, task);
    if i < |free| {
      PlacedLeaves(cfg, free, task);
      NeedIsLeast(cfg, task);
      var left := SlotsLeft(cfg, free, task);
      SortMembers(left, false);
      forall s | s in left ensures OneDay(s) {
        LeftMembers(cfg, free, task, s);
        if LeavesRest(cfg, free[i], need) {
          assert free[i] in free;
          RestDay(free[i], need);
        }
      }
    }
  }

  /** Sorted by start and with nothing tempting, a list lets no weekend slot be taken before a workday one. */
  lemma CalmPrefers(cfg: PlanningConfig, free: seq<TimeSlot>, task: RankedTask)
    requires cfg.Valid() && Sorted(free, false) && NoneTempting(cfg, free)
    ensures PrefersOne(cfg, free, task)
  {
    var need := cfg.Need(task);
    var i := FirstFit(free, need);
    NeedIsLeast(cfg, task);
    if i < |free| && !Workday(free[i]) {
      forall f | f in free && Workday(f) ensures !Fits(f, need) {
        var j :| 0 <= j < |free| && free[j] == f;
        if Fits(f, need) {
          assert j > i && NotAfter(free[i], f, false);
          EarlierDay(free[i], f);
          assert free[i] in free && Tempting(cfg, free[i], f);
        }
      }
    }
  }

  lemma EarlierDay(s: TimeSlot, t: TimeSlot)
    requires s.start <= t.start && Workday(s) != Workday(t)
    ensures Day(s) < Day(t)
  {
  }

  /** Placing a task makes nothing tempting that was not. */
  lemma CalmStays(cfg: PlanningConfig, free: seq<TimeSlot>, task: RankedTask)
    requires cfg.Valid() && AllProper(free) && AllOneDay(free) && Sorted(free, false) && NoneTempting(cfg, free)
    ensures Sorted(PlaceOne(cfg, free, task).free, false) && NoneTempting(cfg, PlaceOne(cfg, free, task).free)
  {
    hide Tempting, PlaceOne, FirstFit, LeavesRest;
    var i := FirstFit(free, cfg.Need(task));
    if i < |free| {
      PlacedLeaves(cfg, free, task);
      var left := SlotsLeft(cfg, free, task);
      SortMembers(left, false);
      SortFacts(left, false);
      SortedWithout(free, i, false);
      assert !LeavesRest(cfg, free[i], cfg.Need(task)) ==> left == free[..i] + free[i + 1..];
      LeftCalm(cfg, free, task);
    } else {
      assert PlaceOne(cfg, free, task).free == free by { NotPlaced(cfg, free, task); }
    }
  }

  lemma NotPlaced(cfg: PlanningConfig, free: seq<TimeSlot>, task: RankedTask)
    requires FirstFit(free, cfg.Need(task)) == |free|
    ensures PlaceOne(cfg, free, task) == Placed(None, free, [])
  {
  }

  lemma LeftCalm(cfg: PlanningConfig, free: seq<TimeSlot>, task: RankedTask)
    requires cfg.Valid() && AllProper(free) && AllOneDay(free) && NoneTempting(cfg, free)
    requires FirstFit(free, cfg.Need(task)) < |free|
    ensures NoneTempting(cfg, SlotsLeft(cfg, free, task))
  {
    hide SlotsLeft, FirstFit, LeavesRest, AllProper, OneDay;
    forall s, t | s in SlotsLeft(cfg, free, task) && t in SlotsLeft(cfg, free, task) ensures !Tempting(cfg, s, t) {
      var s' := Origin(cfg, free, task, s);
      var t' := Origin(cfg, free, task, t);
      assert !Tempting(cfg, s', t');
    }
  }

  /** The free slot a slot left comes from: on the same day, and at least as long. */
  lemma Origin(cfg: PlanningConfig, free: seq<TimeSlot>, task: RankedTask, s: TimeSlot) returns (from: TimeSlot)
    requires cfg.Valid() && AllProper(free) && AllOneDay(free)
    requires FirstFit(free, cfg.Need(task)) < |free| && s in SlotsLeft(cfg, free, task)
    ensures from in free && Day(from) == Day(s) && (Workday(from) <==> Workday(s))
    ensures from.DurationMinutes() >= s.DurationMinutes()
  {
    var i, need := FirstFit(free, cfg.Need(task)), cfg.Need(task);
    LeftMembers(cfg, free, task, s);
    NeedIsLeast(cfg, task);
    if s in free {
      from := s;
    } else {
      from := free[i];
      assert from in free;
      RestDay(from, need);
      RestMinutes(from, need);
    }
  }

  lemma {:induction false} CalmRun(cfg: PlanningConfig, free: seq<TimeSlot>, tasks: seq<RankedTask>)
    requires cfg.Valid() && AllProper(free) && AllOneDay(free) && Sorted(free, false) && NoneTempting(cfg, free)
    ensures Prefers(cfg, free, tasks)
    decreases |tasks|
  {
    if tasks != [] {
      CalmPrefers(cfg, free, tasks[0]);
      CalmStays(cfg, free, tasks[0]);
      LeftProper(cfg, free, tasks[0]);
      CalmRun(cfg, PlaceOne(cfg, free, tasks[0]).free, tasks[1..]);
    }
  }

  /** With workdays in front, a task that fits a workday slot goes to one. */
  lemma FrontPrefers(cfg: PlanningConfig, free: seq<TimeSlot>, task: RankedTask)
    requires Sorted(free, true)
    ensures PrefersOne(cfg, free, task)
  {
    var need := cfg.Need(task);
    var i := FirstFit(free, need);
    if i < |free| && !Workday(free[i]) {
      forall f | f in free && Workday(f) ensures !Fits(f, need) {
        var j :| 0 <= j < |free| && free[j] == f;
        assert j > i ==> NotAfter(free[i], free[j], true);
      }
    }
  }

  /** Without one of its slots, a list can be spoiled only if it could be before. */
  lemma SpoiledWithout(cfg: PlanningConfig, free: seq<TimeSlot>, i: nat)
    requires i < |free| && Spoilable(cfg, free[..i] + free[i + 1..])
    ensures Spoilable(cfg, free)
  {
    hide Tempting, LeavesRest, Fits;
    var rest := free[..i] + free[i + 1..];
    var a: nat, b: nat, c: nat, n :| SpoiledBy(cfg, rest, a, b, c, n);
    var a', b', c' := Shift(a, i), Shift(b, i), Shift(c, i);
    assert rest[a] == free[a'] && rest[b] == free[b'] && rest[c] == free[c'];
    assert SpoiledBy(cfg, free, a', b', c', n);
  }

  /** Where an element of a list without its `i`-th was in that list. */
  function Shift(k: nat, i: nat): nat {
    if k < i then k else k + 1
  }

  /** Putting a remainder back leaves nothing tempting in a list that cannot be spoiled. */
  lemma PutBackCalm(cfg: PlanningConfig, free: seq<TimeSlot>, task: RankedTask)
    requires cfg.Valid() && AllProper(free) && AllOneDay(free) && !Spoilable(cfg, free)
    requires var i := FirstFit(free, cfg.Need(task)); i < |free| && LeavesRest(cfg, free[i], cfg.Need(task))
    ensures NoneTempting(cfg, SlotsLeft(cfg, free, task))
  {
    var left := SlotsLeft(cfg, free, task);
    forall s, t | s in left && t in left ensures !Tempting(cfg, s, t) {
      if Tempting(cfg, s, t) {
        var b := OriginIndex(cfg, free, task, s);
        var a := OriginIndex(cfg, free, task, t);
        NeedIsLeast(cfg, task);
        assert SpoiledBy(cfg, free, a, b, FirstFit(free, cfg.Need(task)), cfg.Need(task));
      }
    }
  }

  lemma OriginIndex(cfg: PlanningConfig, free: seq<TimeSlot>, task: RankedTask, s: TimeSlot) returns (x: nat)
    requires cfg.Valid() && AllProper(free) && AllOneDay(free) && Fits(s, cfg.Least())
    requires FirstFit(free, cfg.Need(task)) < |free| && s in SlotsLeft(cfg, free, task)
    ensures x < |free| && Day(free[x]) == Day(s) && (Workday(free[x]) <==> Workday(s)) && Fits(free[x], cfg.Least())
    ensures Spares(cfg, free, FirstFit(free, cfg.Need(task)), cfg.Need(task), x)
  {
    var i, need := FirstFit(free, cfg.Need(task)), cfg.Need(task);
    LeftMembers(cfg, free, task, s);
    NeedIsLeast(cfg, task);
    if k: nat :| k < |free| && k != i && free[k] == s {
      x := k;
    } else {
      x := i;
      assert free[i] in free;
      RestDay(free[i], need);
      RestMinutes(free[i], need);
    }
  }

  lemma NothingPutBack(cfg: PlanningConfig, free: seq<TimeSlot>, task: RankedTask)
    requires var i := FirstFit(free, cfg.Need(task)); i < |free| && !LeavesRest(cfg, free[i], cfg.Need(task))
    ensures var i := FirstFit(free, cfg.Need(task)); SlotsLeft(cfg, free, task) == free[..i] + free[i + 1..]
  {
    hide FirstFit, LeavesRest;
    var i := FirstFit(free, cfg.Need(task));
    assert free[..i] + free[i + 1..] + [] == free[..i] + free[i + 1..];
  }

  lemma {:induction false} UnspoiledRun(cfg: PlanningConfig, free: seq<TimeSlot>, tasks: seq<RankedTask>)
    requires cfg.Valid() && AllProper(free) && AllOneDay(free) && Sorted(free, true) && !Spoilable(cfg, free)
    ensures Prefers(cfg, free, tasks)
    decreases |tasks|
  {
    hide PlaceOne, FirstFit, LeavesRest, SlotsLeft, Spoilable, PrefersOne, OneDay, AllProper, NoneTempting;
    if tasks != [] {
      var i, need, p := FirstFit(free, cfg.Need(tasks[0])), cfg.Need(tasks[0]), PlaceOne(cfg, free, tasks[0]);
      FrontPrefers(cfg, free, tasks[0]);
      LeftProper(cfg, free, tasks[0]);
      if i == |free| {
        NotPlaced(cfg, free, tasks[0]);
        UnspoiledRun(cfg, p.free, tasks[1..]);
      } else {
        PlacedLeaves(cfg, free, tasks[0]);
        var left := SlotsLeft(cfg, free, tasks[0]);
        if LeavesRest(cfg, free[i], need) {
          PutBackCalm(cfg, free, tasks[0]);
          SortMembers(left, false);
          SortFacts(left, false);
          CalmRun(cfg, p.free, tasks[1..]);
        } else {
          NothingPutBack(cfg, free, tasks[0]);
          SortedWithout(free, i, true);
          if Spoilable(cfg, left) { SpoiledWithout(cfg, free, i); }
          UnspoiledRun(cfg, p.free, tasks[1..]);
        }
      }
    }
  }

  // ---- Tasks that spoil the preference

  lemma TaskNeeds(cfg: PlanningConfig, n: int)
    requires n >= cfg.Least()
    ensures cfg.Need(cfg.TaskOf(n)) == n
  {
  }

  /** In a list by start, tasks fill the slots in front of a tempting weekend slot, and the next one takes it. */
  lemma {:induction false} TemptedTasks(cfg: PlanningConfig, free: seq<TimeSlot>, s: TimeSlot, t: TimeSlot)
    returns (tasks: seq<RankedTask>)
    requires cfg.Valid() && AllProper(free) && Sorted(free, false) && s in free && t in free && Tempting(cfg, s, t)
    ensures !Prefers(cfg, free, tasks)
    decreases |free|
  {
    var m := cfg.Least();
    var i := FirstFit(free, m);
    var j :| 0 <= j < |free| && free[j] == s;
    TaskNeeds(cfg, m);
    if !Workday(free[i]) {
      tasks := [cfg.TaskOf(m)];
      assert !PrefersOne(cfg, free, tasks[0]);
    } else {
      assert i < j && NotAfter(free[i], s, false);
      assert free[i] != t by { EarlierStart(s, t); }
      var rest := free[..i] + free[i + 1..];
      StillIn(free, i, s);
      StillIn(free, i, t);
      SortedWithout(free, i, false);
      forall f | f in rest ensures f in free {}
      var more := TemptedTasks(cfg, rest, s, t);
      tasks := [cfg.TaskOf(free[i].DurationMinutes())] + more;
      FillThen(cfg, free, m, more);
    }
  }

  /** Filling the first slot that takes `n` minutes and going on with tasks that spoil the rest spoils the whole. */
  lemma FillThen(cfg: PlanningConfig, free: seq<TimeSlot>, n: int, more: seq<RankedTask>)
    requires cfg.Valid() && AllProper(free) && n >= cfg.Least() && FirstFit(free, n) < |free|
    requires var i := FirstFit(free, n); !Prefers(cfg, free[..i] + free[i + 1..], more)
    ensures !Prefers(cfg, free, [cfg.TaskOf(free[FirstFit(free, n)].DurationMinutes())] + more)
  {
    hide PlaceOne, FirstFit, PrefersOne, TimeSlot.DurationMinutes;
    FillFirst(cfg, free, n);
    var tasks := [cfg.TaskOf(free[FirstFit(free, n)].DurationMinutes())] + more;
    assert tasks[1..] == more;
  }

  lemma EarlierStart(s: TimeSlot, t: TimeSlot)
    requires Day(s) < Day(t)
    ensures s.start < t.start
  {
  }

  lemma StillIn(free: seq<TimeSlot>, i: nat, s: TimeSlot)
    requires i < |free| && s in free && free[i] != s
    ensures s in free[..i] + free[i + 1..]
  {
    var j :| 0 <= j < |free| && free[j] == s;
    var rest := free[..i] + free[i + 1..];
    if j < i {
      assert rest[j] == s;
    } else {
      assert rest[j - 1] == s;
    }
  }

  /** What a task of `n` minutes at slot `c` leaves of a slot it spares. */
  function Spared(free: seq<TimeSlot>, c: nat, n: int, x: nat): TimeSlot
    requires c < |free| && x < |free|
  {
    if x == c then Remainder(free[c], n) else free[x]
  }

  /** A task of `n` minutes for which `c` is the first slot, and then the tasks it tempts. */
  lemma PutBackTasks(cfg: PlanningConfig, free: seq<TimeSlot>, a: nat, b: nat, c: nat, n: int)
    returns (tasks: seq<RankedTask>)
    requires cfg.Valid() && AllProper(free) && AllOneDay(free)
    requires SpoiledBy(cfg, free, a, b, c, n) && FirstFit(free, n) == c
    ensures !Prefers(cfg, free, tasks)
  {
    hide TimeSlot.DurationMinutes, TimeSlot.Weekday, Day, OneDay, FirstFit, PlaceOne;
    var task := cfg.TaskOf(n);
    TaskNeeds(cfg, n);
    PlacedLeaves(cfg, free, task);
    LeftProper(cfg, free, task);
    var left, p := SlotsLeft(cfg, free, task), PlaceOne(cfg, free, task);
    var s, t := Spared(free, c, n, b), Spared(free, c, n, a);
    SparedLeft(cfg, free, c, n, a);
    SparedLeft(cfg, free, c, n, b);
    SortMembers(left, false);
    SortFacts(left, false);
    var more := TemptedTasks(cfg, p.free, s, t);
    tasks := [task] + more;
    assert tasks[1..] == more;
  }

  lemma SparedLeft(cfg: PlanningConfig, free: seq<TimeSlot>, c: nat, n: int, x: nat)
    requires cfg.Valid() && AllProper(free) && AllOneDay(free) && c < |free| && x < |free|
    requires n >= cfg.Least() && FirstFit(free, n) == c && LeavesRest(cfg, free[c], n)
    requires Fits(free[x], cfg.Least()) && Spares(cfg, free, c, n, x)
    ensures var s := Spared(free, c, n, x);
            && s in SlotsLeft(cfg, free, cfg.TaskOf(n)) && Fits(s, cfg.Least())
            && Day(s) == Day(free[x]) && (Workday(s) <==> Workday(free[x]))
  {
    hide TimeSlot.DurationMinutes, Workday, Day, OneDay, FirstFit, Fits, LeavesRest, SlotsLeft, Remainder;
    TaskNeeds(cfg, n);
    StaysLeft(cfg, free, cfg.TaskOf(n), x);
    if x == c {
      assert free[c] in free;
      SparedRest(cfg, free[c], n);
    }
  }

  lemma SparedRest(cfg: PlanningConfig, slot: TimeSlot, n: int)
    requires cfg.Valid() && slot.Proper() && OneDay(slot) && n >= cfg.Least() && LeavesRest(cfg, slot, n)
    requires Fits(slot, n + cfg.Least())
    ensures var s := Remainder(slot, n);
            Fits(s, cfg.Least()) && Day(s) == Day(slot) && (Workday(s) <==> Workday(slot))
  {
    hide TimeSlot.DurationMinutes, Workday, Day, OneDay, Remainder;
    RestDay(slot, n);
    RestMinutes(slot, n);
  }

  /** Every slot but the one taken is left as it is, and that one as its remainder. */
  lemma StaysLeft(cfg: PlanningConfig, free: seq<TimeSlot>, task: RankedTask, x: nat)
    requires x < |free| && FirstFit(free, cfg.Need(task)) < |free|
    requires LeavesRest(cfg, free[FirstFit(free, cfg.Need(task))], cfg.Need(task))
    ensures Spared(free, FirstFit(free, cfg.Need(task)), cfg.Need(task), x) in SlotsLeft(cfg, free, task)
  {
    hide FirstFit, PlanningConfig.Need, LeavesRest, Remainder;
    var c, left := FirstFit(free, cfg.Need(task)), SlotsLeft(cfg, free, task);
    if x == c {
      assert left[|left| - 1] == Remainder(free[c], cfg.Need(task));
    } else if x < c {
      assert left[x] == free[x];
    } else {
      assert left[x - 1] == free[x];
    }
  }

  /** Tasks fill the slots in front of `c` that could take `n` minutes; then one of `n` minutes takes `c`. */
  lemma {:induction false} SpoilingTasks(cfg: PlanningConfig, free: seq<TimeSlot>, a: nat, b: nat, c: nat, n: int)
    returns (tasks: seq<RankedTask>)
    requires cfg.Valid() && AllProper(free) && AllOneDay(free) && SpoiledBy(cfg, free, a, b, c, n)
    ensures !Prefers(cfg, free, tasks)
    decreases |free|
  {
    hide SpoiledBy, FirstFit, Prefers, OneDay, TimeSlot.DurationMinutes, TimeSlot.Proper;
    var i := FirstFit(free, n);
    if i == c {
      tasks := PutBackTasks(cfg, free, a, b, c, n);
    } else {
      InTheWay(cfg, free, a, b, c, n);
      var rest := free[..i] + free[i + 1..];
      forall f | f in rest ensures f in free {}
      SpoiledBeside(cfg, free, a, b, c, n, i);
      var more := SpoilingTasks(cfg, rest, Unshift(a, i), Unshift(b, i), Unshift(c, i), n);
      tasks := [cfg.TaskOf(free[i].DurationMinutes())] + more;
      FillThen(cfg, free, n, more);
    }
  }

  /** A slot in the way of `c` is none of the three. */
  lemma InTheWay(cfg: PlanningConfig, free: seq<TimeSlot>, a: nat, b: nat, c: nat, n: int)
    requires cfg.Valid() && SpoiledBy(cfg, free, a, b, c, n) && FirstFit(free, n) != c
    ensures n >= cfg.Least() && FirstFit(free, n) < |free| && FirstFit(free, n) < c
    ensures FirstFit(free, n) != a && FirstFit(free, n) != b
  {
    hide Tempting, FirstFit;
    assert Fits(free[c], n);
  }

  lemma SpoiledBeside(cfg: PlanningConfig, free: seq<TimeSlot>, a: nat, b: nat, c: nat, n: int, i: nat)
    requires SpoiledBy(cfg, free, a, b, c, n) && i < |free| && i != a && i != b && i != c
    ensures SpoiledBy(cfg, free[..i] + free[i + 1..], Unshift(a, i), Unshift(b, i), Unshift(c, i), n)
  {
    hide Tempting, LeavesRest, Fits;
    var rest := free[..i] + free[i + 1..];
    assert rest[Unshift(a, i)] == free[a] && rest[Unshift(b, i)] == free[b] && rest[Unshift(c, i)] == free[c];
  }

  function Unshift(k: nat, i: nat): nat
    requires k != i
  {
    if k < i then k else k - 1
  }

  /**
   With workdays in front, no task list sends a task to a weekend while a workday slot fits it, if
   and only if no slot can have a remainder put back while a weekend slot and a workday slot of a
   later day both keep room.
   */
  lemma PreferenceExactly(cfg: PlanningConfig, free: seq<TimeSlot>)
    requires cfg.Valid() && AllProper(free) && AllOneDay(free) && Sorted(free, true)
    ensures (forall tasks :: Prefers(cfg, free, tasks)) <==> !Spoilable(cfg, free)
  {
    if Spoilable(cfg, free) {
      var a: nat, b: nat, c: nat, n :| SpoiledBy(cfg, free, a, b, c, n);
      var tasks := SpoilingTasks(cfg, free, a, b, c, n);
    } else {
      forall tasks ensures Prefers(cfg, free, tasks) {
        UnspoiledRun(cfg, free, tasks);
      }
    }
  }

  // ---- Plans

  lemma WithinOneDay(f: TimeSlot, w: TimeSlot)
    requires OneDay(w) && w.start <= f.start && f.start < f.end <= w.end
    ensures OneDay(f)
  {
    assert Day(w) * DAY <= w.start <= f.start < (Day(w) + 1) * DAY;
    SameDay(f.start, Day(w));
  }

  lemma WindowOneDay(w: WorkingWindow, day: int)
    requires w.Readable()
    ensures OneDay(w.On(day))
  {
    assert day * DAY <= w.On(day).start < (day + 1) * DAY;
    SameDay(w.On(day).start, day);
  }

  lemma {:induction false} WorkingOneDay(windows: seq<WorkingWindow>, day: int, days: nat)
    requires ReadableDays(windows, day, days)
    ensures AllOneDay(WorkingSlots(windows, day, days))
    decreases days
  {
    if days > 0 {
      WorkingOneDay(windows, day, days - 1);
      DayOneDay(windows, day + (days - 1));
      OneDayConcat(WorkingSlots(windows, day, days - 1), DaySlots(windows, day + days - 1));
    }
  }

  lemma DayOneDay(windows: seq<WorkingWindow>, day: int)
    requires ReadableOn(windows, day)
    ensures AllOneDay(DaySlots(windows, day))
  {
    hide DaySlots, WorkingWindow.On, WorkingWindow.Readable, OneDay, IsoWeekday;
    DaySlotsProper(windows, day);
    forall s | s in DaySlots(windows, day) ensures OneDay(s) {
      var i :| 0 <= i < |windows| && windows[i].weekday == IsoWeekday(day) && s == windows[i].On(day);
      WindowOneDay(windows[i], day);
    }
  }

  lemma OneDayConcat(a: seq<TimeSlot>, b: seq<TimeSlot>)
    requires AllOneDay(a) && AllOneDay(b)
    ensures AllOneDay(a + b)
  {
  }

  /** The free slots a plan starts from. */
  lemma PlanFree(cfg: PlanningConfig, events: seq<Event>, startDay: int, days: int)
    requires cfg.Valid() && cfg.preferWeekdays && ReadableDays(cfg.windows, startDay, DaysPlanned(days))
    requires Working(cfg, startDay, days) != []
    ensures var free := InitialFree(cfg, Working(cfg, startDay, days), events);
            AllProper(free) && AllOneDay(free) && Sorted(free, true)
  {
    var working := Working(cfg, startDay, days);
    var free := InitialFree(cfg, working, events);
    WorkingProper(cfg, startDay, days);
    InitialFreeFacts(cfg, working, events, 0);
    SortFacts(Sort(LongEnough(SubtractAll(working, Busy(working, events)), cfg.minBlock, true), false), true);
    WorkingOneDay(cfg.windows, startDay, DaysPlanned(days));
    SortMembers(WorkingSlots(cfg.windows, startDay, DaysPlanned(days)), false);
    forall f | f in free ensures OneDay(f) {
      var w :| w in working && w.start <= f.start && f.end <= w.end;
      WithinOneDay(f, w);
    }
  }

  lemma EarlierUnspoiled(cfg: PlanningConfig, free: seq<TimeSlot>)
    requires WorkdaysEarlier(free)
    ensures !Spoilable(cfg, free)
  {
    forall a: nat, b: nat, c: nat, n ensures !SpoiledBy(cfg, free, a, b, c, n) {
      if a < |free| && b < |free| {
        assert free[a] in free && free[b] in free;
      }
    }
  }

  /** Over a horizon and events, the preference holds for all tasks exactly when the free slots cannot be spoiled. */
  lemma PlanPrefersWorkdays(cfg: PlanningConfig, events: seq<Event>, startDay: int, days: int)
    requires cfg.Valid() && cfg.preferWeekdays && ReadableDays(cfg.windows, startDay, DaysPlanned(days))
    requires Working(cfg, startDay, days) != []
    ensures var free := InitialFree(cfg, Working(cfg, startDay, days), events);
            && ((forall tasks :: Prefers(cfg, free, tasks)) <==> !Spoilable(cfg, free))
            && (WorkdaysEarlier(free) ==> forall tasks :: Prefers(cfg, free, tasks))
  {
    var free := InitialFree(cfg, Working(cfg, startDay, days), events);
    PlanFree(cfg, events, startDay, days);
    PreferenceExactly(cfg, free);
    if WorkdaysEarlier(free) {
      EarlierUnspoiled(cfg, free);
    }
  }

  // ---- A plan that loses the preference

  const SUNDAY_SLOT: TimeSlot := TimeSlot(7 * DAY + 32400, 7 * DAY + 43200)
  const MONDAY_SLOT: TimeSlot := TimeSlot(8 * DAY + 32400, 8 * DAY + 43200)
  const REST_OF_MONDAY: TimeSlot := TimeSlot(MONDAY_SLOT.start + 3600, MONDAY_SLOT.end)
  const HOUR: RankedTask := RankedTask("t", 60, 0.0)

  function TwoMornings(): PlanningConfig {
    PlanningConfig([WorkingWindow(7, 9, 0, 12, 0), WorkingWindow(1, 9, 0, 12, 0)], 30, 0, true)
  }

  lemma MorningsWorking()
    ensures Working(TwoMornings(), 7, 2) == [SUNDAY_SLOT, MONDAY_SLOT]
    ensures ReadableDays(TwoMornings().windows, 7, 2)
  {
    hide DaySlots;
    var windows := TwoMornings().windows;
    SundayMorning();
    MondayMorning();
    assert WorkingSlots(windows, 7, 0) == [];
    assert WorkingSlots(windows, 7, 1) == [SUNDAY_SLOT];
    assert WorkingSlots(windows, 7, 2) == [SUNDAY_SLOT, MONDAY_SLOT];
    assert [SUNDAY_SLOT, MONDAY_SLOT][1..] == [MONDAY_SLOT];
    assert Sort([MONDAY_SLOT], false) == [MONDAY_SLOT];
  }

  lemma SundayMorning()
    ensures DaySlots(TwoMornings().windows, 7) == [SUNDAY_SLOT]
  {
    var windows := TwoMornings().windows;
    var rest := windows[1..];
    assert rest[1..] == [] && windows[0].On(7) == SUNDAY_SLOT;
    assert DaySlots(rest[1..], 7) == [];
    assert DaySlots(rest, 7) == [];
  }

  lemma MondayMorning()
    ensures DaySlots(TwoMornings().windows, 8) == [MONDAY_SLOT]
  {
    var windows := TwoMornings().windows;
    var rest := windows[1..];
    assert rest[1..] == [] && rest[0].On(8) == MONDAY_SLOT;
    assert DaySlots(rest[1..], 8) == [];
    assert DaySlots(rest, 8) == [MONDAY_SLOT];
  }

  lemma MorningsFree()
    ensures InitialFree(TwoMornings(), [SUNDAY_SLOT, MONDAY_SLOT], []) == [MONDAY_SLOT, SUNDAY_SLOT]
  {
    var working := [SUNDAY_SLOT, MONDAY_SLOT];
    assert working[1..] == [MONDAY_SLOT];
    assert LongEnough([MONDAY_SLOT], 30, true) == [MONDAY_SLOT];
    assert LongEnough(working, 30, true) == working;
    assert Sort([MONDAY_SLOT], false) == [MONDAY_SLOT] == Sort([MONDAY_SLOT], true);
    assert Sort(working, false) == working;
    assert !NotAfter(SUNDAY_SLOT, MONDAY_SLOT, true);
    assert Insert(SUNDAY_SLOT, [MONDAY_SLOT], true) == [MONDAY_SLOT] + Insert(SUNDAY_SLOT, [MONDAY_SLOT][1..], true);
    assert Sort(working, true) == [MONDAY_SLOT, SUNDAY_SLOT];
  }

  lemma FirstHour()
    ensures PlaceOne(TwoMornings(), [MONDAY_SLOT, SUNDAY_SLOT], HOUR)
         == Placed(Some(MONDAY_SLOT.start), [SUNDAY_SLOT, REST_OF_MONDAY], [])
  {
    var free := [MONDAY_SLOT, SUNDAY_SLOT];
    assert FirstFit(free, 60) == 0;
    assert free[..0] + free[1..] == [SUNDAY_SLOT];
    assert [SUNDAY_SLOT] + [REST_OF_MONDAY] == [SUNDAY_SLOT, REST_OF_MONDAY];
    assert [SUNDAY_SLOT, REST_OF_MONDAY][1..] == [REST_OF_MONDAY];
    assert Sort([REST_OF_MONDAY], false) == [REST_OF_MONDAY];
    assert Sort([SUNDAY_SLOT, REST_OF_MONDAY], false) == [SUNDAY_SLOT, REST_OF_MONDAY];
  }

  lemma SecondHour()
    ensures PlaceOne(TwoMornings(), [SUNDAY_SLOT, REST_OF_MONDAY], HOUR).start == Some(SUNDAY_SLOT.start)
    ensures !PrefersOne(TwoMornings(), [SUNDAY_SLOT, REST_OF_MONDAY], HOUR)
  {
    var free := [SUNDAY_SLOT, REST_OF_MONDAY];
    assert FirstFit(free, 60) == 0;
    assert free[1] in free && Workday(free[1]) && Fits(free[1], 60);
  }

  /**
   With workdays preferred and windows on Sunday and Monday morning, the second of two hours of work
   is planned on Sunday although Monday has room left.
   */
  lemma PreferenceLost()
    ensures ReadableDays(TwoMornings().windows, 7, 2) && Working(TwoMornings(), 7, 2) != []
    ensures PlanOf(TwoMornings(), [HOUR, HOUR], [], 7, 2).Some?
    ensures var planned := PlanOf(TwoMornings(), [HOUR, HOUR], [], 7, 2).value.planned;
            && |planned| == 2 && planned[0].startAt == MONDAY_SLOT.start && planned[1].startAt == SUNDAY_SLOT.start
    ensures !Prefers(TwoMornings(), InitialFree(TwoMornings(), Working(TwoMornings(), 7, 2), []), [HOUR, HOUR])
  {
    hide PlaceOne, Sort, LongEnough, SubtractAll, DaySlots, ReadableDays, PrefersOne, InitialFree, Working;
    MorningsWorking();
    MorningsFree();
    FirstHour();
    SecondHour();
    TwoStarts(TwoMornings(), [MONDAY_SLOT, SUNDAY_SLOT]);
    TwoItems(TwoMornings(), MONDAY_SLOT.start, SUNDAY_SLOT.start);
    assert [HOUR, HOUR][1..] == [HOUR];
  }

  lemma TwoStarts(cfg: PlanningConfig, free: seq<TimeSlot>)
    ensures var p := PlaceOne(cfg, free, HOUR);
            PlaceAll(cfg, free, [HOUR, HOUR]).starts == [p.start, PlaceOne(cfg, p.free, HOUR).start]
  {
    hide PlaceOne;
    var left := PlaceOne(cfg, free, HOUR).free;
    assert [HOUR, HOUR][1..] == [HOUR] && [HOUR][1..] == [];
    var second := PlaceOne(cfg, left, HOUR);
    assert PlaceAll(cfg, left, [HOUR]).starts == [second.start] + PlaceAll(cfg, second.free, []).starts;
  }

  lemma TwoItems(cfg: PlanningConfig, a: int, b: int)
    ensures var planned := PlannedOf(cfg, [HOUR, HOUR], [Some(a), Some(b)]);
            |planned| == 2 && planned[0].startAt == a && planned[1].startAt == b
  {
    var first, second: seq<Option<int>> := [Some(a), Some(b)], [Some(b)];
    assert [HOUR, HOUR][1..] == [HOUR] && first[1..] == second;
    assert |PlannedOf(cfg, [HOUR][1..], second[1..])| == 0;
    assert PlannedOf(cfg, [HOUR], second)[0].startAt == b;
  }
}

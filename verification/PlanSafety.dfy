/** When plans are safe: exactly for working slots whose usable ones keep apart and end inside the span. */
module PlanSafety {
  import opened Text
  import opened TimeSlots
  import opened FreeTime
  import opened Planner
  import opened PlannerEngine

  /** No two slots of the list share an instant. */
  ghost predicate Apart(ss: seq<TimeSlot>) {
    forall i, j :: 0 <= i < j < |ss| ==> !ss[i].Overlaps(ss[j])
  }

  /** The working slots that could hold a task at all. */
  function Usable(cfg: PlanningConfig, slots: seq<TimeSlot>): seq<TimeSlot> {
    LongEnough(slots, cfg.Least(), true)
  }

  /** The usable working slots are apart, and none ends after the last slot to start. */
  ghost predicate UsableApart(cfg: PlanningConfig, working: seq<TimeSlot>)
    requires working != []
  {
    && Apart(Usable(cfg, working))
    && forall s :: s in Usable(cfg, working) ==> s.end <= Span(working).end
  }

  /** Planned items with their breaks are apart from each other and from every blocking event. */
  ghost predicate Safe(cfg: PlanningConfig, r: PlannerResult, events: seq<Event>) {
    var slots := ItemSlots(cfg, r.planned);
    && Apart(slots)
    && forall i, e :: 0 <= i < |slots| && e in events && !e.cancelled && e.blocking && e.slot.Proper() ==>
         !slots[i].Overlaps(e.slot)
  }

  // ---- Load of usable slots

  lemma {:induction false} LongEnoughConcat(a: seq<TimeSlot>, b: seq<TimeSlot>, minutes: int)
    ensures LongEnough(a + b, minutes, true) == LongEnough(a, minutes, true) + LongEnough(b, minutes, true)
  {
    if a == [] {
      assert a + b == b;
    } else {
      assert (a + b)[1..] == a[1..] + b;
      LongEnoughConcat(a[1..], b, minutes);
    }
  }

  lemma UsableInsert(x: TimeSlot, ss: seq<TimeSlot>, workdaysFirst: bool, minutes: int, t: int)
    ensures Load(LongEnough(Insert(x, ss, workdaysFirst), minutes, true), t)
         == Load(LongEnough([x], minutes, true), t) + Load(LongEnough(ss, minutes, true), t)
    decreases |ss|
  {
    if ss == [] || NotAfter(x, ss[0], workdaysFirst) {
      LongEnoughConcat([x], ss, minutes);
      LoadConcat(LongEnough([x], minutes, true), LongEnough(ss, minutes, true), t);
    } else {
      UsableInsert(x, ss[1..], workdaysFirst, minutes, t);
      assert Insert(x, ss, workdaysFirst)[1..] == Insert(x, ss[1..], workdaysFirst);
    }
  }

  /** Sorting changes nothing about the load of the usable slots. */
  lemma {:induction false} UsableSort(ss: seq<TimeSlot>, workdaysFirst: bool, minutes: int, t: int)
    ensures Load(LongEnough(Sort(ss, workdaysFirst), minutes, true), t) == Load(LongEnough(ss, minutes, true), t)
    decreases |ss|
  {
    if ss != [] {
      UsableSort(ss[1..], workdaysFirst, minutes, t);
      UsableInsert(ss[0], Sort(ss[1..], workdaysFirst), workdaysFirst, minutes, t);
      assert ss == [ss[0]] + ss[1..];
      LongEnoughConcat([ss[0]], ss[1..], minutes);
      LoadConcat(LongEnough([ss[0]], minutes, true), LongEnough(ss[1..], minutes, true), t);
    }
  }

  lemma {:induction false} UsableTwice(ss: seq<TimeSlot>, few: int, minutes: int)
    requires few <= minutes
    ensures LongEnough(LongEnough(ss, few, true), minutes, true) == LongEnough(ss, minutes, true)
  {
    if ss != [] {
      UsableTwice(ss[1..], few, minutes);
      if ss[0].DurationMinutes() >= few {
        LongEnoughConcat([ss[0]], LongEnough(ss[1..], few, true), minutes);
      }
    }
  }

  /** What is cut out of one slot is usable only where the slot was, and not where it was cut. */
  lemma PieceLoad(slot: TimeSlot, busy: TimeSlot, minutes: int, t: int)
    requires slot.Proper() && busy.Proper()
    ensures Load(LongEnough(SubtractInterval(slot, busy), minutes, true), t)
         <= if busy.Contains(t) then 0 else Load(LongEnough([slot], minutes, true), t)
  {
    SubtractFromLoad([slot], busy, t);
    assert SubtractFrom([slot], busy) == SubtractInterval(slot, busy) + SubtractFrom([], busy);
    assert SubtractFrom([slot], busy) == SubtractInterval(slot, busy);
    LongEnoughSplits(SubtractInterval(slot, busy), minutes, t);
    LongEnoughSplits([slot], minutes, t);
    if slot.DurationMinutes() < minutes {
      assert forall s :: s in SubtractInterval(slot, busy) ==>
                           slot.start <= s.start && s.end <= slot.end && s.start < s.end;
      NoneUsable(SubtractInterval(slot, busy), minutes);
    }
  }

  lemma {:induction false} NoneUsable(ss: seq<TimeSlot>, minutes: int)
    requires forall s :: s in ss ==> s.DurationMinutes() < minutes
    ensures LongEnough(ss, minutes, true) == []
  {
    if ss != [] {
      NoneUsable(ss[1..], minutes);
    }
  }

  lemma {:induction false} CutLoad(slots: seq<TimeSlot>, busy: TimeSlot, minutes: int, t: int)
    requires AllProper(slots) && busy.Proper()
    ensures Load(LongEnough(SubtractFrom(slots, busy), minutes, true), t)
         <= if busy.Contains(t) then 0 else Load(LongEnough(slots, minutes, true), t)
  {
    if slots != [] {
      hide LongEnough, SubtractInterval;
      var pieces, rest := SubtractInterval(slots[0], busy), SubtractFrom(slots[1..], busy);
      CutLoad(slots[1..], busy, minutes, t);
      PieceLoad(slots[0], busy, minutes, t);
      LongEnoughConcat(pieces, rest, minutes);
      LoadConcat(LongEnough(pieces, minutes, true), LongEnough(rest, minutes, true), t);
      assert slots == [slots[0]] + slots[1..];
      LongEnoughConcat([slots[0]], slots[1..], minutes);
      LoadConcat(LongEnough([slots[0]], minutes, true), LongEnough(slots[1..], minutes, true), t);
    } else {
      assert LongEnough([], minutes, true) == [];
    }
  }

  /** Usable free time lies in usable working slots, outside busy time. */
  lemma {:induction false} CutAllLoad(slots: seq<TimeSlot>, busy: seq<TimeSlot>, minutes: int, t: int)
    requires AllProper(slots) && AllProper(busy)
    ensures Load(LongEnough(SubtractAll(slots, busy), minutes, true), t)
         <= if Load(busy, t) > 0 then 0 else Load(LongEnough(slots, minutes, true), t)
    decreases |busy|
  {
    if busy != [] {
      assert busy[0] in busy;
      CutLoad(slots, busy[0], minutes, t);
      forall s | s in slots ensures Within(s, slots) { assert s.start <= s.start && s.end <= s.end; }
      SubtractFromSlots(slots, busy[0], slots);
      CutAllLoad(SubtractFrom(slots, busy[0]), busy[1..], minutes, t);
    }
  }

  /** Tasks are placed in usable free time only. */
  lemma PlaceOneUsable(cfg: PlanningConfig, free: seq<TimeSlot>, task: RankedTask, t: int)
    requires cfg.Valid() && AllProper(free)
    ensures var p := PlaceOne(cfg, free, task);
            var block := if p.start.Some? then [cfg.Block(task, p.start.value)] else [];
            Load(Usable(cfg, p.free), t) + Load(block, t) <= Load(Usable(cfg, free), t)
  {
    var i := FirstFit(free, cfg.Need(task));
    if i < |free| {
      var slot, rest := free[i], free[..i] + free[i + 1..];
      assert slot in free;
      var remainder := TimeSlot(cfg.Block(task, slot.start).end, slot.end);
      SlotUsable(cfg, task, slot, remainder, t);
      WithoutOne(cfg, free, i, t);
      UsableConcat2(cfg, rest, [remainder], t);
      UsableSort(rest + [remainder], false, cfg.Least(), t);
    }
  }

  /** A slot that takes a task is usable, and its load is that of the block and the remainder. */
  lemma SlotUsable(cfg: PlanningConfig, task: RankedTask, slot: TimeSlot, remainder: TimeSlot, t: int)
    requires cfg.Valid() && slot.Proper() && Fits(slot, cfg.Need(task))
    requires remainder == TimeSlot(cfg.Block(task, slot.start).end, slot.end)
    ensures Load(Usable(cfg, [remainder]), t) + Load([cfg.Block(task, slot.start)], t) <= Load(Usable(cfg, [slot]), t)
  {
    LongEnoughSplits([remainder], cfg.Least(), t);
    assert Usable(cfg, [slot]) == [slot];
    assert Load([slot], t) == Load([cfg.Block(task, slot.start)], t) + Load([remainder], t);
  }

  lemma WithoutOne(cfg: PlanningConfig, free: seq<TimeSlot>, i: nat, t: int)
    requires i < |free|
    ensures Load(Usable(cfg, free), t)
         == Load(Usable(cfg, free[..i] + free[i + 1..]), t) + Load(Usable(cfg, [free[i]]), t)
  {
    hide Usable, Load;
    assert free == free[..i] + ([free[i]] + free[i + 1..]);
    UsableConcat3(cfg, free[..i], [free[i]], free[i + 1..], t);
    UsableConcat2(cfg, free[..i], free[i + 1..], t);
  }

  lemma UsableConcat2(cfg: PlanningConfig, a: seq<TimeSlot>, b: seq<TimeSlot>, t: int)
    ensures Load(Usable(cfg, a + b), t) == Load(Usable(cfg, a), t) + Load(Usable(cfg, b), t)
  {
    LongEnoughConcat(a, b, cfg.Least());
    LoadConcat(Usable(cfg, a), Usable(cfg, b), t);
  }

  lemma UsableConcat3(cfg: PlanningConfig, a: seq<TimeSlot>, b: seq<TimeSlot>, c: seq<TimeSlot>, t: int)
    ensures Load(Usable(cfg, a + (b + c)), t)
         == Load(Usable(cfg, a), t) + Load(Usable(cfg, b), t) + Load(Usable(cfg, c), t)
  {
    UsableConcat2(cfg, a, b + c, t);
    UsableConcat2(cfg, b, c, t);
  }

  lemma {:induction false} PlacedUsable(cfg: PlanningConfig, free: seq<TimeSlot>, tasks: seq<RankedTask>, t: int)
    requires cfg.Valid() && AllProper(free)
    ensures Load(BlocksOf(cfg, tasks, PlaceAll(cfg, free, tasks).starts), t) <= Load(Usable(cfg, free), t)
    decreases |tasks|
  {
    if tasks != [] {
      var p := PlaceOne(cfg, free, tasks[0]);
      PlaceOneUsable(cfg, free, tasks[0], t);
      PlaceOneProper(cfg, free, tasks[0]);
      PlacedUsable(cfg, p.free, tasks[1..], t);
      assert PlaceAll(cfg, free, tasks).starts[1..] == PlaceAll(cfg, p.free, tasks[1..]).starts;
      LoadConcat(if p.start.Some? then [cfg.Block(tasks[0], p.start.value)] else [],
                 BlocksOf(cfg, tasks[1..], PlaceAll(cfg, p.free, tasks[1..]).starts), t);
    }
  }

  // ---- Apart slots

  lemma {:induction false} ApartLoad(ss: seq<TimeSlot>, t: int)
    requires Apart(ss)
    ensures Load(ss, t) <= 1
  {
    if ss != [] {
      ApartLoad(ss[1..], t);
      LoadPositive(ss[1..], t);
    }
  }

  lemma LoadApart(ss: seq<TimeSlot>)
    requires AllProper(ss) && forall t :: Load(ss, t) <= 1
    ensures Apart(ss)
  {
    forall i, j | 0 <= i < j < |ss| ensures !ss[i].Overlaps(ss[j]) {
      assert ss[i] in ss && ss[j] in ss;
      if ss[i].Overlaps(ss[j]) {
        LoadTwice(ss, i, j, Later(ss[i].start, ss[j].start));
      }
    }
  }

  // ---- The condition is enough

  /** Where a block is, a usable working slot is, and no blocking event of the span. */
  lemma BlockLoad(cfg: PlanningConfig, tasks: seq<RankedTask>, events: seq<Event>, startDay: int, days: int, t: int)
    requires cfg.Valid() && Working(cfg, startDay, days) != []
    ensures var working := Working(cfg, startDay, days);
            Load(BlocksOf(cfg, tasks, ScheduleOf(cfg, tasks, events, working).starts), t)
            <= if Load(Busy(working, events), t) > 0 then 0 else Load(Usable(cfg, working), t)
  {
    var working := Working(cfg, startDay, days);
    var busy, free := Busy(working, events), InitialFree(cfg, working, events);
    WorkingProper(cfg, startDay, days);
    InitialFreeFacts(cfg, working, events, t);
    PlacedUsable(cfg, free, tasks, t);
    FreeUsable(cfg, working, events, t);
    BusyExactly(events, Span(working), t);
    SortMembers(BusyOf(events, Span(working)), false);
    CutAllLoad(working, busy, cfg.Least(), t);
  }

  lemma FreeUsable(cfg: PlanningConfig, working: seq<TimeSlot>, events: seq<Event>, t: int)
    requires cfg.Valid() && working != []
    ensures Load(Usable(cfg, InitialFree(cfg, working, events)), t)
         == Load(Usable(cfg, SubtractAll(working, Busy(working, events))), t)
  {
    var all := SubtractAll(working, Busy(working, events));
    var kept := LongEnough(all, cfg.minBlock, true);
    UsableSort(kept, false, cfg.Least(), t);
    UsableSort(Sort(kept, false), true, cfg.Least(), t);
    UsableTwice(all, cfg.minBlock, cfg.Least());
  }

  /** The items of a plan with their breaks lie inside one working slot each. */
  lemma PlanInside(cfg: PlanningConfig, tasks: seq<RankedTask>, events: seq<Event>, startDay: int, days: int)
    requires cfg.Valid() && Working(cfg, startDay, days) != []
    ensures var working := Working(cfg, startDay, days);
            var blocks := BlocksOf(cfg, tasks, ScheduleOf(cfg, tasks, events, working).starts);
            AllProper(blocks) && AllWithin(blocks, working)
  {
    var working := Working(cfg, startDay, days);
    WorkingProper(cfg, startDay, days);
    InitialFreeFacts(cfg, working, events, 0);
    PlaceAllConserves(cfg, InitialFree(cfg, working, events), tasks, working, 0);
  }

  /** The slots of a plan's items. */
  function PlanSlots(cfg: PlanningConfig, tasks: seq<RankedTask>, events: seq<Event>, startDay: int, days: int)
    : seq<TimeSlot>
  {
    var r := PlanOf(cfg, tasks, events, startDay, days);
    if r.Some? then ItemSlots(cfg, r.value.planned) else []
  }

  lemma PlanSlotsAreBlocks(cfg: PlanningConfig, tasks: seq<RankedTask>, events: seq<Event>, startDay: int, days: int)
    requires ReadableDays(cfg.windows, startDay, DaysPlanned(days)) && Working(cfg, startDay, days) != []
    ensures PlanSlots(cfg, tasks, events, startDay, days)
         == BlocksOf(cfg, tasks, ScheduleOf(cfg, tasks, events, Working(cfg, startDay, days)).starts)
  {
    ItemSlotsAreBlocks(cfg, tasks, ScheduleOf(cfg, tasks, events, Working(cfg, startDay, days)).starts);
  }

  /**
   Items of a plan with their breaks are pairwise apart, each inside one working slot, and none meets
   a blocking event, if the working slots that can hold a task are apart and end inside the span.
   */
  lemma PlanSafe(cfg: PlanningConfig, tasks: seq<RankedTask>, events: seq<Event>, startDay: int, days: int)
    requires cfg.Valid() && ReadableDays(cfg.windows, startDay, DaysPlanned(days))
    requires Working(cfg, startDay, days) != [] && UsableApart(cfg, Working(cfg, startDay, days))
    ensures Safe(cfg, PlanOf(cfg, tasks, events, startDay, days).value, events)
    ensures AllWithin(PlanSlots(cfg, tasks, events, startDay, days), Working(cfg, startDay, days))
  {
    var working := Working(cfg, startDay, days);
    var usable, slots := Usable(cfg, working), PlanSlots(cfg, tasks, events, startDay, days);
    PlanSlotsAreBlocks(cfg, tasks, events, startDay, days);
    PlanInside(cfg, tasks, events, startDay, days);
    forall t ensures Load(slots, t) <= 1 {
      BlockLoad(cfg, tasks, events, startDay, days, t);
      ApartLoad(usable, t);
    }
    LoadApart(slots);
    forall i, e | 0 <= i < |slots| && e in events && !e.cancelled && e.blocking && e.slot.Proper()
      ensures !slots[i].Overlaps(e.slot)
    {
      assert slots[i] in slots;
      if slots[i].Overlaps(e.slot) {
        var t := Later(slots[i].start, e.slot.start);
        assert slots[i].Contains(t) && e.Blocks(t);
        LoadPositive(slots, t);
        BlockLoad(cfg, tasks, events, startDay, days, t);
        UsableInSpan(cfg, startDay, days, t);
        BusyInSpan(events, Span(working), t);
        SortLoad(BusyOf(events, Span(working)), false, t);
      }
    }
  }

  lemma UsableInSpan(cfg: PlanningConfig, startDay: int, days: int, t: int)
    requires Working(cfg, startDay, days) != [] && UsableApart(cfg, Working(cfg, startDay, days))
    requires Load(Usable(cfg, Working(cfg, startDay, days)), t) > 0
    ensures Span(Working(cfg, startDay, days)).Contains(t) && Span(Working(cfg, startDay, days)).Proper()
  {
    var working := Working(cfg, startDay, days);
    WorkingProper(cfg, startDay, days);
    LoadPositive(Usable(cfg, working), t);
    var s :| s in Usable(cfg, working) && s.Contains(t);
    LongEnoughMembers(working, cfg.Least(), true);
    var i :| 0 <= i < |working| && working[i] == s;
    assert i > 0 ==> NotAfter(working[0], working[i], false);
  }

  /** Windows that do not overlap meet the condition, over any days. */
  lemma DisjointWindowsApart(cfg: PlanningConfig, startDay: int, days: int)
    requires ReadableDays(cfg.windows, startDay, DaysPlanned(days)) && WindowsDisjoint(cfg.windows)
    requires Working(cfg, startDay, days) != []
    ensures UsableApart(cfg, Working(cfg, startDay, days))
  {
    var working := Working(cfg, startDay, days);
    var usable := Usable(cfg, working);
    WorkingProper(cfg, startDay, days);
    LongEnoughMembers(working, cfg.Least(), true);
    forall t ensures Load(working, t) <= 1 && Load(usable, t) <= 1 {
      WorkingDisjoint(cfg, startDay, days, t);
      LongEnoughSplits(working, cfg.Least(), t);
    }
    LoadApart(usable);
    forall s | s in usable ensures s.end <= Span(working).end {
      LoadPositive(working, s.end - 1);
      SpanCoversWork(working, s.end - 1);
    }
  }

  // ---- The condition is needed

  predicate Whole(slot: TimeSlot) {
    slot.start % 60 == 0 && slot.end % 60 == 0
  }

  predicate WholeMinutes(ss: seq<TimeSlot>) {
    forall s :: s in ss ==> Whole(s)
  }

  /** Tasks that fill every usable slot from end to end, one after the other. */
  lemma {:induction false} FillAll(cfg: PlanningConfig, free: seq<TimeSlot>) returns (tasks: seq<RankedTask>)
    requires cfg.Valid() && AllProper(free) && WholeMinutes(free)
    ensures BlocksOf(cfg, tasks, PlaceAll(cfg, free, tasks).starts) == Usable(cfg, free)
    decreases |free|
  {
    var i := FirstFit(free, cfg.Least());
    if i == |free| {
      FrontUnusable(cfg, free);
      assert free[..i] == free;
      tasks := [];
    } else {
      var rest := free[..i] + free[i + 1..];
      forall s | s in rest ensures s in free {}
      var later := FillAll(cfg, rest);
      tasks := [cfg.TaskOf(free[i].DurationMinutes())] + later;
      FillOne(cfg, free, later);
      UsableFrom(cfg, free, i);
    }
  }

  /** Filling the first usable slot puts that slot in front of the blocks. */
  lemma FillOne(cfg: PlanningConfig, free: seq<TimeSlot>, later: seq<RankedTask>)
    requires cfg.Valid() && AllProper(free) && WholeMinutes(free) && FirstFit(free, cfg.Least()) < |free|
    ensures var i := FirstFit(free, cfg.Least());
            var rest, tasks := free[..i] + free[i + 1..], [cfg.TaskOf(free[i].DurationMinutes())] + later;
            BlocksOf(cfg, tasks, PlaceAll(cfg, free, tasks).starts)
            == [free[i]] + BlocksOf(cfg, later, PlaceAll(cfg, rest, later).starts)
  {
    hide PlaceOne, FirstFit, PlanningConfig.Need, PlanningConfig.TaskOf, AllProper;
    var slot := free[FirstFit(free, cfg.Least())];
    assert slot in free;
    FillFirst(cfg, free, cfg.Least());
    var task := cfg.TaskOf(slot.DurationMinutes());
    assert cfg.Block(task, slot.start) == slot by { WholeDuration(slot); }
    assert ([task] + later)[1..] == later;
    assert PlaceAll(cfg, free, [task] + later).starts[1..]
        == PlaceAll(cfg, PlaceOne(cfg, free, task).free, later).starts;
  }

  lemma WholeDuration(slot: TimeSlot)
    requires Whole(slot) && slot.start <= slot.end
    ensures slot.start + slot.DurationMinutes() * 60 == slot.end
  {
  }

  lemma FrontUnusable(cfg: PlanningConfig, free: seq<TimeSlot>)
    ensures Usable(cfg, free[..FirstFit(free, cfg.Least())]) == []
  {
    hide TimeSlot.DurationMinutes, LongEnough;
    var front := free[..FirstFit(free, cfg.Least())];
    forall s | s in front ensures s.DurationMinutes() < cfg.Least() {
      var j :| 0 <= j < |front| && front[j] == s;
      assert !Fits(free[j], cfg.Least());
    }
    NoneUsable(front, cfg.Least());
  }

  /** The first usable slot comes before all other usable ones. */
  lemma UsableFrom(cfg: PlanningConfig, free: seq<TimeSlot>, i: nat)
    requires i < |free| && i == FirstFit(free, cfg.Least())
    ensures Usable(cfg, free) == [free[i]] + Usable(cfg, free[..i] + free[i + 1..])
  {
    hide LongEnough, TimeSlot.DurationMinutes, FirstFit;
    var m, front, back := cfg.Least(), free[..i], free[i + 1..];
    FrontUnusable(cfg, free);
    assert free == front + ([free[i]] + back);
    LongEnoughConcat(front, [free[i]] + back, m);
    LongEnoughConcat([free[i]], back, m);
    LongEnoughConcat(front, back, m);
    OneUsable(free[i], m);
    NoFront(LongEnough([free[i]] + back, m, true));
    NoFront(LongEnough(back, m, true));
  }

  lemma NoFront(ss: seq<TimeSlot>)
    ensures [] + ss == ss
  {
  }

  lemma OneUsable(slot: TimeSlot, minutes: int)
    requires slot.DurationMinutes() >= minutes
    ensures LongEnough([slot], minutes, true) == [slot]
  {
  }

  lemma Multiple(k: int)
    ensures (60 * k) % 60 == 0
  {
  }

  lemma WholeOn(w: WorkingWindow, day: int)
    ensures Whole(w.On(day))
  {
    var from, to := day * 1440 + w.startHour * 60 + w.startMinute, day * 1440 + w.endHour * 60 + w.endMinute;
    assert w.On(day).start == 60 * from && w.On(day).end == 60 * to;
    Multiple(from);
    Multiple(to);
  }

  lemma {:induction false} DayWholeMinutes(windows: seq<WorkingWindow>, day: int)
    ensures WholeMinutes(DaySlots(windows, day))
    decreases |windows|
  {
    if windows != [] {
      hide WorkingWindow.On, Whole, IsoWeekday;
      DayWholeMinutes(windows[1..], day);
      WholeOn(windows[0], day);
    }
  }

  lemma {:induction false} WorkingWholeMinutes(windows: seq<WorkingWindow>, day: int, days: nat)
    ensures WholeMinutes(WorkingSlots(windows, day, days))
    decreases days
  {
    if days > 0 {
      WorkingWholeMinutes(windows, day, days - 1);
      OneMoreDay(windows, day, days - 1);
    }
  }

  lemma OneMoreDay(windows: seq<WorkingWindow>, day: int, n: nat)
    requires WholeMinutes(WorkingSlots(windows, day, n))
    ensures WholeMinutes(WorkingSlots(windows, day, n + 1))
  {
    hide DaySlots, WholeMinutes;
    DayWholeMinutes(windows, day + n);
    WholeConcat(WorkingSlots(windows, day, n), DaySlots(windows, day + n));
  }

  lemma WholeConcat(a: seq<TimeSlot>, b: seq<TimeSlot>)
    requires WholeMinutes(a) && WholeMinutes(b)
    ensures WholeMinutes(a + b)
  {
  }

  /** Events outside the span leave all working slots of the minimum block free. */
  lemma UntouchedFree(cfg: PlanningConfig, events: seq<Event>, startDay: int, days: int)
    requires cfg.Valid() && Working(cfg, startDay, days) != []
    requires BusyOf(events, Span(Working(cfg, startDay, days))) == []
    ensures var working := Working(cfg, startDay, days);
            var free := InitialFree(cfg, working, events);
            && AllProper(free) && WholeMinutes(free)
            && (forall s :: s in Usable(cfg, working) <==> s in Usable(cfg, free))
            && forall t :: Load(Usable(cfg, free), t) == Load(Usable(cfg, working), t)
  {
    var working := Working(cfg, startDay, days);
    var free, kept := InitialFree(cfg, working, events), LongEnough(working, cfg.minBlock, true);
    assert SubtractAll(working, Busy(working, events)) == working;
    WorkingProper(cfg, startDay, days);
    InitialFreeFacts(cfg, working, events, 0);
    WorkingWholeMinutes(cfg.windows, startDay, DaysPlanned(days));
    SortMembers(WorkingSlots(cfg.windows, startDay, DaysPlanned(days)), false);
    LongEnoughMembers(working, cfg.minBlock, true);
    SortMembers(kept, false);
    SortMembers(Sort(kept, false), true);
    LongEnoughMembers(working, cfg.Least(), true);
    LongEnoughMembers(free, cfg.Least(), true);
    forall t ensures Load(Usable(cfg, free), t) == Load(Usable(cfg, working), t) {
      FreeUsable(cfg, working, events, t);
    }
  }

  /** Usable slots that overlap, or end after the span, let some tasks and events be planned unsafely. */
  lemma UnsafePlan(cfg: PlanningConfig, startDay: int, days: int) returns (tasks: seq<RankedTask>, events: seq<Event>)
    requires cfg.Valid() && ReadableDays(cfg.windows, startDay, DaysPlanned(days))
    requires Working(cfg, startDay, days) != [] && !UsableApart(cfg, Working(cfg, startDay, days))
    ensures !Safe(cfg, PlanOf(cfg, tasks, events, startDay, days).value, events)
  {
    hide Load, LongEnough, Working, InitialFree, PlaceAll, WholeMinutes, SubtractAll;
    var working := Working(cfg, startDay, days);
    var usable, span := Usable(cfg, working), Span(working);
    WorkingProper(cfg, startDay, days);
    LongEnoughMembers(working, cfg.Least(), true);
    var late := if Apart(usable) then var s :| s in usable && s.end > span.end; s else span;
    events := if Apart(usable) then [Event(TimeSlot(span.end, late.end), false, true)] else [];
    assert BusyOf(events, span) == [];
    UntouchedFree(cfg, events, startDay, days);
    tasks := FillAll(cfg, InitialFree(cfg, working, events));
    PlanSlotsAreBlocks(cfg, tasks, events, startDay, days);
    var slots := PlanSlots(cfg, tasks, events, startDay, days);
    if Apart(usable) {
      var i :| 0 <= i < |slots| && slots[i] == late;
      assert slots[i].Overlaps(events[0].slot);
    } else {
      forall t ensures Load(slots, t) == Load(usable, t) {}
      if Apart(slots) {
        forall t ensures Load(usable, t) <= 1 { ApartLoad(slots, t); }
        LoadApart(usable);
      }
    }
  }

  /**
   Over a horizon with working time, every plan for any tasks and events is safe if and only if the
   working slots that can hold a task do not overlap and none of them ends after the last to start.
   */
  lemma PlanSafeExactly(cfg: PlanningConfig, startDay: int, days: int)
    requires cfg.Valid() && ReadableDays(cfg.windows, startDay, DaysPlanned(days))
    requires Working(cfg, startDay, days) != []
    ensures (forall tasks, events :: Safe(cfg, PlanOf(cfg, tasks, events, startDay, days).value, events))
       <==> UsableApart(cfg, Working(cfg, startDay, days))
  {
    if UsableApart(cfg, Working(cfg, startDay, days)) {
      forall tasks, events ensures Safe(cfg, PlanOf(cfg, tasks, events, startDay, days).value, events) {
        PlanSafe(cfg, tasks, events, startDay, days);
      }
    } else {
      var tasks, events := UnsafePlan(cfg, startDay, days);
    }
  }
}

/** The planning engine: builds the free slots, places the ranked tasks, and what its result guarantees. */
module PlannerEngine {
  import opened Text
  import opened TimeSlots
  import opened FreeTime
  import opened Planner

  function DaysPlanned(days: int): nat {
    if days < 1 then 1 else days
  }

  function Working(cfg: PlanningConfig, startDay: int, days: int): seq<TimeSlot> {
    Sort(WorkingSlots(cfg.windows, startDay, DaysPlanned(days)), false)
  }

  /** From the start of the first working slot to the end of the last one. */
  function Span(working: seq<TimeSlot>): TimeSlot
    requires working != []
  {
    TimeSlot(working[0].start, working[|working| - 1].end)
  }

  function Busy(working: seq<TimeSlot>, events: seq<Event>): seq<TimeSlot>
    requires working != []
  {
    Sort(BusyOf(events, Span(working)), false)
  }

  function InitialFree(cfg: PlanningConfig, working: seq<TimeSlot>, events: seq<Event>): seq<TimeSlot>
    requires working != []
  {
    var free := Sort(LongEnough(SubtractAll(working, Busy(working, events)), cfg.minBlock, true), false);
    if cfg.preferWeekdays then Sort(free, true) else free
  }

  /** The free fragments too short to be used at all. */
  function Lost(cfg: PlanningConfig, working: seq<TimeSlot>, events: seq<Event>): seq<TimeSlot>
    requires working != []
  {
    LongEnough(SubtractAll(working, Busy(working, events)), cfg.minBlock, false)
  }

  function ScheduleOf(cfg: PlanningConfig, tasks: seq<RankedTask>, events: seq<Event>, working: seq<TimeSlot>)
    : (s: Schedule)
    requires working != []
    ensures |s.starts| == |tasks|
  {
    PlaceAll(cfg, InitialFree(cfg, working, events), tasks)
  }

  function PlanOf(cfg: PlanningConfig, tasks: seq<RankedTask>, events: seq<Event>, startDay: int, days: int)
    : Option<PlannerResult>
  {
    if !ReadableDays(cfg.windows, startDay, DaysPlanned(days)) then None
    else
      var working := Working(cfg, startDay, days);
      if working == [] then Some(PlannerResult([], [], None))
      else
        var starts := ScheduleOf(cfg, tasks, events, working).starts;
        Some(PlannerResult(PlannedOf(cfg, tasks, starts), UnplannedOf(tasks, starts), Some(Span(working))))
  }

  lemma StartsStep(cfg: PlanningConfig, slots: seq<TimeSlot>, todo: seq<RankedTask>)
    requires todo != []
    ensures var p, left := PlaceOne(cfg, slots, todo[0]), PlaceAll(cfg, slots, todo).starts;
            left[0] == p.start && left[1..] == PlaceAll(cfg, p.free, todo[1..]).starts
  {
    var p, left := PlaceOne(cfg, slots, todo[0]), PlaceAll(cfg, slots, todo).starts;
    assert left == [p.start] + PlaceAll(cfg, p.free, todo[1..]).starts;
  }

  /** The lists after the verdict on one task: planned from `start`, or unplanned. */
  function WithPlanned(cfg: PlanningConfig, planned: seq<PlannedItem>, task: RankedTask, start: Option<int>)
    : seq<PlannedItem>
  {
    if start.None? then planned
    else planned + [PlannedItem(task.id, start.value, start.value + cfg.Required(task) * 60, task.score)]
  }

  function WithUnplanned(unplanned: seq<UnplannedItem>, task: RankedTask, start: Option<int>): seq<UnplannedItem> {
    if start.Some? then unplanned else unplanned + [UnplannedItem(task.id, task.score)]
  }

  lemma PlannedStep(cfg: PlanningConfig, todo: seq<RankedTask>, left: seq<Option<int>>, planned: seq<PlannedItem>)
    requires todo != [] && |left| == |todo|
    ensures planned + PlannedOf(cfg, todo, left)
         == WithPlanned(cfg, planned, todo[0], left[0]) + PlannedOf(cfg, todo[1..], left[1..])
  {
  }

  lemma UnplannedStep(todo: seq<RankedTask>, left: seq<Option<int>>, unplanned: seq<UnplannedItem>)
    requires todo != [] && |left| == |todo|
    ensures unplanned + UnplannedOf(todo, left)
         == WithUnplanned(unplanned, todo[0], left[0]) + UnplannedOf(todo[1..], left[1..])
  {
  }

  lemma NothingToReport(cfg: PlanningConfig, todo: seq<RankedTask>, left: seq<Option<int>>)
    requires todo == [] && left == []
    ensures PlannedOf(cfg, todo, left) == [] && UnplannedOf(todo, left) == []
  {
  }

  class Engine {
    const config: PlanningConfig

    constructor (config: PlanningConfig)
      ensures this.config == config
    {
      this.config := config;
    }

    method FindSlot(free: seq<TimeSlot>, need: int) returns (idx: int)
      ensures idx == if FirstFit(free, need) < |free| then FirstFit(free, need) else -1
    {
      for i := 0 to |free|
        invariant FirstFit(free, need) == i + FirstFit(free[i..], need)
      {
        assert free[i..][0] == free[i] && free[i..][1..] == free[i + 1..];
        if free[i].DurationMinutes() >= need {
          return i;
        }
      }
      return -1;
    }

    /** Takes the first slot that fits out of the list and puts back what is left of it. */
    method PlaceTask(free: seq<TimeSlot>, task: RankedTask) returns (start: Option<int>, free': seq<TimeSlot>)
      ensures start == PlaceOne(config, free, task).start && free' == PlaceOne(config, free, task).free
    {
      var required := config.Required(task);
      var totalRequired := required + config.breakMinutes;
      var idx := FindSlot(free, totalRequired);
      if idx < 0 {
        return None, free;
      }
      var chosen := free[idx];
      free' := free[..idx] + free[idx + 1..];
      start := Some(chosen.start);
      var endTime := chosen.start + totalRequired * 60;
      if endTime < chosen.end {
        var remainder := TimeSlot(endTime, chosen.end);
        if remainder.DurationMinutes() >= config.minBlock {
          free' := Sort(free' + [remainder], false);
        }
      }
    }

    /** Places one task and reports it in one of the two lists. */
    method PlaceNext(slots: seq<TimeSlot>, task: RankedTask, planned: seq<PlannedItem>, unplanned: seq<UnplannedItem>)
      returns (slots': seq<TimeSlot>, planned': seq<PlannedItem>, unplanned': seq<UnplannedItem>)
      ensures var p := PlaceOne(config, slots, task);
              && slots' == p.free
              && planned' == WithPlanned(config, planned, task, p.start)
              && unplanned' == WithUnplanned(unplanned, task, p.start)
    {
      planned', unplanned' := planned, unplanned;
      var start;
      start, slots' := PlaceTask(slots, task);
      if start.None? {
        unplanned' := unplanned + [UnplannedItem(task.id, task.score)];
      } else {
        var taskEnd := start.value + config.Required(task) * 60;
        planned' := planned + [PlannedItem(task.id, start.value, taskEnd, task.score)];
      }
    }

    /** Places the ranked tasks one after the other. */
    method PlaceTasks(free: seq<TimeSlot>, ranked: seq<RankedTask>)
      returns (planned: seq<PlannedItem>, unplanned: seq<UnplannedItem>)
      ensures planned == PlannedOf(config, ranked, PlaceAll(config, free, ranked).starts)
      ensures unplanned == UnplannedOf(ranked, PlaceAll(config, free, ranked).starts)
    {
      hide PlannedOf, UnplannedOf, PlaceAll, PlaceOne, WithPlanned, WithUnplanned;
      planned, unplanned := [], [];
      var slots := free;
      ghost var todo, left := ranked, PlaceAll(config, free, ranked).starts;
      ghost var allPlanned, allUnplanned := PlannedOf(config, todo, left), UnplannedOf(todo, left);
      for i := 0 to |ranked|
        invariant todo == ranked[i..] && left == PlaceAll(config, slots, todo).starts
        invariant planned + PlannedOf(config, todo, left) == allPlanned
        invariant unplanned + UnplannedOf(todo, left) == allUnplanned
      {
        assert todo[0] == ranked[i];
        StartsStep(config, slots, todo);
        PlannedStep(config, todo, left, planned);
        UnplannedStep(todo, left, unplanned);
        slots, planned, unplanned := PlaceNext(slots, ranked[i], planned, unplanned);
        todo, left := todo[1..], left[1..];
      }
      NothingToReport(config, todo, left);
    }

    /** Plans the ranked tasks around the events; no result when a working window cannot be read. */
    method Plan(ranked: seq<RankedTask>, events: seq<Event>, startDay: int, days: int)
      returns (r: Option<PlannerResult>)
      ensures r == PlanOf(config, ranked, events, startDay, days)
      ensures r.Some? <==> TimesGiven(config.windows, startDay, if days < 1 then 1 else days)
      ensures r.Some? ==> WindowGiven(config, r.value.window, startDay, days)
      ensures r.Some? && config.Valid() ==> InWorkingTime(config, r.value.planned, startDay, days)
    {
      hide ReadableDays, TimesGiven, CoversWorkingTime, InWorkingTime, WindowGiven, WorkingSlots, Sort;
      hide BusyOf, SubtractAll, LongEnough, PlannedOf, UnplannedOf, PlaceAll;
      PlanFacts(config, ranked, events, startDay, days);
      var span := if days < 1 then 1 else days;
      var working := BuildWorkingSlots(config.windows, startDay, span);
      if working.None? {
        return None;
      }
      if working.value == [] {
        return Some(PlannerResult([], [], None));
      }
      var window := TimeSlot(working.value[0].start, working.value[|working.value| - 1].end);
      var busy := CollectBusyIntervals(events, window);
      var free := SubtractBusy(working.value, busy, config.minBlock);
      if config.preferWeekdays {
        free := Sort(free, true);
      }
      var planned, unplanned := PlaceTasks(free, ranked);
      return Some(PlannerResult(planned, unplanned, Some(window)));
    }
  }

  // ---- What a plan guarantees

  lemma WorkingProper(cfg: PlanningConfig, startDay: int, days: int)
    ensures var working := Working(cfg, startDay, days);
            && AllProper(working) && Sorted(working, false)
            && (working != [] ==> Span(working).Proper())
  {
    var slots := WorkingSlots(cfg.windows, startDay, DaysPlanned(days));
    WorkingSlotsProper(cfg.windows, startDay, DaysPlanned(days));
    SortMembers(slots, false);
    SortFacts(slots, false);
    var working := Working(cfg, startDay, days);
    if working != [] {
      assert working[0] in working && working[|working| - 1] in working;
      assert |working| > 1 ==> NotAfter(working[0], working[|working| - 1], false);
    }
  }

  /** Working slots cover exactly the instants of the planned days at which a window is open. */
  lemma WorkingTime(cfg: PlanningConfig, startDay: int, days: int, t: int)
    ensures ReadableDays(cfg.windows, startDay, if days < 1 then 1 else days) ==>
              (Load(Working(cfg, startDay, days), t) > 0
               <==> WorkingAt(cfg.windows, startDay, if days < 1 then 1 else days, t))
  {
    SortLoad(WorkingSlots(cfg.windows, startDay, DaysPlanned(days)), false, t);
    if ReadableDays(cfg.windows, startDay, if days < 1 then 1 else days) {
      WorkingExactly(cfg.windows, startDay, DaysPlanned(days), t);
    }
  }

  lemma WorkingDisjoint(cfg: PlanningConfig, startDay: int, days: int, t: int)
    requires ReadableDays(cfg.windows, startDay, DaysPlanned(days)) && WindowsDisjoint(cfg.windows)
    ensures Load(Working(cfg, startDay, days), t) <= 1
  {
    SortLoad(WorkingSlots(cfg.windows, startDay, DaysPlanned(days)), false, t);
    WorkingLoad(cfg.windows, startDay, DaysPlanned(days), t);
  }

  /** When working slots do not overlap, the last one to start is the last one to end. */
  lemma SpanCoversWork(working: seq<TimeSlot>, t: int)
    requires working != [] && AllProper(working) && Sorted(working, false)
    requires forall u :: Load(working, u) <= 1
    ensures Load(working, t) > 0 ==> Span(working).Contains(t)
  {
    var n := |working| - 1;
    forall i | 0 <= i <= n ensures working[0].start <= working[i].start && working[i].end <= working[n].end {
      assert working[i] in working && working[n] in working;
      if i > 0 {
        assert NotAfter(working[0], working[i], false);
      }
      if i < n {
        assert NotAfter(working[i], working[n], false);
        if working[i].end > working[n].end {
          LoadTwice(working, i, n, working[n].start);
        }
      }
    }
    LoadPositive(working, t);
  }

  lemma InitialFreeFacts(cfg: PlanningConfig, working: seq<TimeSlot>, events: seq<Event>, t: int)
    requires working != [] && AllProper(working) && Span(working).Proper()
    ensures var free := InitialFree(cfg, working, events);
            && AllProper(free) && AllWithin(free, working)
            && Load(free, t) + Load(Lost(cfg, working, events), t)
               == (if Load(Busy(working, events), t) > 0 then 0 else Load(working, t))
            && TotalTime(free) + TotalTime(Lost(cfg, working, events))
               == TotalTime(SubtractAll(working, Busy(working, events)))
  {
    var busy := Busy(working, events);
    BusyExactly(events, Span(working), t);
    SortMembers(BusyOf(events, Span(working)), false);
    FreeTimeExact(working, busy, cfg.minBlock, t);
    var all := SubtractAll(working, busy);
    LongEnoughSplits(all, cfg.minBlock, t);
    var free := Sort(LongEnough(all, cfg.minBlock, true), false);
    SortLoad(LongEnough(all, cfg.minBlock, true), false, t);
    SortMembers(free, true);
    SortLoad(free, true, t);
  }

  /**
   At every instant, as many of the planned blocks, the remaining free slots, the dropped remainders
   and the fragments too short to use cover it as working slots do; none does if a blocking event
   covers an instant of the span.
   */
  lemma PlanExact(cfg: PlanningConfig, tasks: seq<RankedTask>, events: seq<Event>, startDay: int, days: int, t: int)
    requires cfg.Valid() && Working(cfg, startDay, days) != []
    ensures var working := Working(cfg, startDay, days);
            var s := ScheduleOf(cfg, tasks, events, working);
            Load(BlocksOf(cfg, tasks, s.starts), t) + Load(s.free, t) + Load(s.dropped, t)
            + Load(Lost(cfg, working, events), t)
            == if Span(working).Contains(t) && (exists e :: e in events && e.Blocks(t)) then 0 else Load(working, t)
    ensures ReadableDays(cfg.windows, startDay, if days < 1 then 1 else days) ==>
              (Load(Working(cfg, startDay, days), t) > 0
               <==> WorkingAt(cfg.windows, startDay, if days < 1 then 1 else days, t))
  {
    var working := Working(cfg, startDay, days);
    WorkingTime(cfg, startDay, days, t);
    WorkingProper(cfg, startDay, days);
    InitialFreeFacts(cfg, working, events, t);
    PlaceAllConserves(cfg, InitialFree(cfg, working, events), tasks, working, t);
    SortLoad(BusyOf(events, Span(working)), false, t);
    BusyInSpan(events, Span(working), t);
  }

  /** Busy intervals lie inside the window and cover exactly the instants blocked there. */
  lemma BusyInSpan(events: seq<Event>, window: TimeSlot, t: int)
    requires window.Proper()
    ensures Load(BusyOf(events, window), t) > 0 <==> window.Contains(t) && exists e :: e in events && e.Blocks(t)
  {
    if window.Contains(t) {
      BusyExactly(events, window, t);
    } else {
      BusyInside(events, window, t);
    }
  }

  lemma {:induction false} BusyInside(events: seq<Event>, window: TimeSlot, t: int)
    ensures Load(BusyOf(events, window), t) > 0 ==> window.Contains(t)
  {
    if events != [] {
      BusyInside(events[1..], window, t);
    }
  }

  /** Every instant of a planned item and of the break behind it is working time. */
  ghost predicate InWorkingTime(cfg: PlanningConfig, planned: seq<PlannedItem>, startDay: int, days: int) {
    forall k, t :: 0 <= k < |planned| && ItemSlots(cfg, planned)[k].Contains(t) ==>
      WorkingAt(cfg.windows, startDay, if days < 1 then 1 else days, t)
  }

  lemma PlanInWorkingTime(cfg: PlanningConfig, tasks: seq<RankedTask>, events: seq<Event>, startDay: int, days: int)
    requires cfg.Valid() && PlanOf(cfg, tasks, events, startDay, days).Some?
    ensures InWorkingTime(cfg, PlanOf(cfg, tasks, events, startDay, days).value.planned, startDay, days)
  {
    hide WorkingAt;
    var planned, working := PlanOf(cfg, tasks, events, startDay, days).value.planned, Working(cfg, startDay, days);
    forall k, t | 0 <= k < |planned| && ItemSlots(cfg, planned)[k].Contains(t)
      ensures WorkingAt(cfg.windows, startDay, if days < 1 then 1 else days, t)
    {
      var starts := ScheduleOf(cfg, tasks, events, working).starts;
      ItemSlotsAreBlocks(cfg, tasks, starts);
      WorkingProper(cfg, startDay, days);
      InitialFreeFacts(cfg, working, events, t);
      PlaceAllConserves(cfg, InitialFree(cfg, working, events), tasks, working, t);
      assert Within(BlocksOf(cfg, tasks, starts)[k], working);
      LoadPositive(working, t);
      WorkingTime(cfg, startDay, days, t);
    }
  }

  /** The planned window starts with the first working instant and ends behind one; there is none without any. */
  ghost predicate WindowGiven(cfg: PlanningConfig, window: Option<TimeSlot>, startDay: int, days: int) {
    var n: nat := if days < 1 then 1 else days;
    match window
    case None => forall t :: !WorkingAt(cfg.windows, startDay, n, t)
    case Some(w) =>
      && WorkingAt(cfg.windows, startDay, n, w.start) && WorkingAt(cfg.windows, startDay, n, w.end - 1)
      && forall t :: WorkingAt(cfg.windows, startDay, n, t) ==> w.start <= t
  }

  lemma PlanWindow(cfg: PlanningConfig, tasks: seq<RankedTask>, events: seq<Event>, startDay: int, days: int)
    requires PlanOf(cfg, tasks, events, startDay, days).Some?
    ensures WindowGiven(cfg, PlanOf(cfg, tasks, events, startDay, days).value.window, startDay, days)
  {
    hide WorkingAt, Working;
    var working := Working(cfg, startDay, days);
    var n: nat := if days < 1 then 1 else days;
    WorkingProper(cfg, startDay, days);
    forall t ensures WorkingAt(cfg.windows, startDay, n, t) <==> exists s :: s in working && s.Contains(t) {
      WorkingTime(cfg, startDay, days, t);
      LoadPositive(working, t);
    }
    if working != [] {
      var first, last := working[0], working[|working| - 1];
      assert first in working && first.Contains(first.start);
      assert last in working && last.Contains(last.end - 1);
      forall s | s in working ensures first.start <= s.start {
        var k :| 0 <= k < |working| && working[k] == s;
        assert k > 0 ==> NotAfter(working[0], working[k], false);
      }
    }
  }

  lemma PlanFacts(cfg: PlanningConfig, tasks: seq<RankedTask>, events: seq<Event>, startDay: int, days: int)
    ensures var r := PlanOf(cfg, tasks, events, startDay, days);
            && (r.Some? <==> TimesGiven(cfg.windows, startDay, if days < 1 then 1 else days))
            && (r.Some? ==> WindowGiven(cfg, r.value.window, startDay, days))
            && (r.Some? && cfg.Valid() ==> InWorkingTime(cfg, r.value.planned, startDay, days))
  {
    hide InWorkingTime, TimesGiven, ReadableDays, WindowGiven;
    ReadableIff(cfg.windows, startDay, DaysPlanned(days));
    if PlanOf(cfg, tasks, events, startDay, days).Some? {
      PlanWindow(cfg, tasks, events, startDay, days);
    }
    if cfg.Valid() && PlanOf(cfg, tasks, events, startDay, days).Some? {
      PlanInWorkingTime(cfg, tasks, events, startDay, days);
    }
  }

  /** All ranked tasks are reported, each list in rank order, exactly when there is working time or no task. */
  lemma PlanReportsTasks(cfg: PlanningConfig, tasks: seq<RankedTask>, events: seq<Event>, startDay: int, days: int)
    requires ReadableDays(cfg.windows, startDay, DaysPlanned(days))
    ensures var r := PlanOf(cfg, tasks, events, startDay, days);
            && r.Some?
            && (multiset(PlannedIds(r.value.planned)) + multiset(UnplannedIds(r.value.unplanned))
                == multiset(TaskIds(tasks))
                <==> Working(cfg, startDay, days) != [] || tasks == [])
            && InOrder(PlannedIds(r.value.planned), TaskIds(tasks))
            && InOrder(UnplannedIds(r.value.unplanned), TaskIds(tasks))
  {
    var working := Working(cfg, startDay, days);
    if working != [] {
      ReportsInRankOrder(cfg, tasks, ScheduleOf(cfg, tasks, events, working).starts);
      EveryTaskReported(cfg, tasks, ScheduleOf(cfg, tasks, events, working).starts);
    } else if tasks != [] {
      assert TaskIds(tasks)[0] in multiset(TaskIds(tasks));
    }
  }

  /** The free seconds at the start are those taken, those still free and those dropped. */
  lemma PlanConservesTime(cfg: PlanningConfig, tasks: seq<RankedTask>, events: seq<Event>, startDay: int, days: int)
    requires cfg.Valid()
    requires Working(cfg, startDay, days) != []
    ensures var working := Working(cfg, startDay, days);
            var s := ScheduleOf(cfg, tasks, events, working);
            && TotalTime(InitialFree(cfg, working, events))
               == TotalTime(BlocksOf(cfg, tasks, s.starts)) + TotalTime(s.free) + TotalTime(s.dropped)
            && (forall d :: d in s.dropped ==> d.DurationMinutes() < cfg.minBlock)
  {
    var working := Working(cfg, startDay, days);
    WorkingProper(cfg, startDay, days);
    InitialFreeFacts(cfg, working, events, 0);
    PlaceAllConserves(cfg, InitialFree(cfg, working, events), tasks, working, 0);
  }

  /** The minutes of a task, at least the minimum block, and of the break behind it. */
  ghost function MinutesNeeded(cfg: PlanningConfig, task: RankedTask): int {
    (if task.estimatedMinutes < cfg.minBlock then cfg.minBlock else task.estimatedMinutes) + cfg.breakMinutes
  }

  lemma {:induction false} PlaceAllProper(cfg: PlanningConfig, free: seq<TimeSlot>, tasks: seq<RankedTask>)
    requires cfg.Valid() && AllProper(free)
    ensures AllProper(PlaceAll(cfg, free, tasks).free)
    decreases |tasks|
  {
    if tasks != [] {
      PlaceOneProper(cfg, free, tasks[0]);
      PlaceAllProper(cfg, PlaceOne(cfg, free, tasks[0]).free, tasks[1..]);
    }
  }

  /** A rejected task fits nothing left over, and outranks no planned task that needs as much time. */
  lemma PlanRejectsJustly(cfg: PlanningConfig, tasks: seq<RankedTask>, events: seq<Event>, startDay: int, days: int,
                          a: nat)
    requires cfg.Valid()
    requires Working(cfg, startDay, days) != [] && a < |tasks|
    ensures var s := ScheduleOf(cfg, tasks, events, Working(cfg, startDay, days));
            s.starts[a].None? ==>
              && (forall f :: f in s.free ==> f.end - f.start < MinutesNeeded(cfg, tasks[a]) * 60)
              && forall b :: a < b < |tasks| && MinutesNeeded(cfg, tasks[a]) <= MinutesNeeded(cfg, tasks[b]) ==>
                   s.starts[b].None?
  {
    var working := Working(cfg, startDay, days);
    WorkingProper(cfg, startDay, days);
    InitialFreeFacts(cfg, working, events, 0);
    var free := InitialFree(cfg, working, events);
    RejectionJustified(cfg, free, tasks, a);
    PlaceAllProper(cfg, free, tasks);
  }

  // ---- Why the windows must not overlap

  const LONG_SLOT: TimeSlot := TimeSlot(DAY + 32400, DAY + 64800)
  const SHORT_SLOT: TimeSlot := TimeSlot(DAY + 36000, DAY + 39600)
  const LUNCH: Event := Event(TimeSlot(DAY + 43200, DAY + 46800), false, true)
  const FIVE_HOURS: RankedTask := RankedTask("t", 300, 0.0)

  function Overlapping(): PlanningConfig {
    PlanningConfig([WorkingWindow(1, 9, 0, 18, 0), WorkingWindow(1, 10, 0, 11, 0)], 30, 0, false)
  }

  lemma OverlappingWorking()
    ensures Working(Overlapping(), 1, 1) == [LONG_SLOT, SHORT_SLOT]
  {
    var windows := Overlapping().windows;
    assert DaySlots(windows[1..], 1) == [SHORT_SLOT];
    assert DaySlots(windows, 1) == [LONG_SLOT, SHORT_SLOT];
    assert WorkingSlots(windows, 1, 0) == [];
    assert Sort([SHORT_SLOT], false) == [SHORT_SLOT];
  }

  lemma OverlappingFree()
    ensures InitialFree(Overlapping(), [LONG_SLOT, SHORT_SLOT], [LUNCH]) == [LONG_SLOT, SHORT_SLOT]
  {
    var working := [LONG_SLOT, SHORT_SLOT];
    assert BusyOf([LUNCH], Span(working)) == [];
    assert LongEnough(working[1..], 30, true) == [SHORT_SLOT];
    assert LongEnough(working, 30, true) == working;
    assert Sort(working[1..], false) == [SHORT_SLOT];
  }

  /**
   Overlapping windows void the guarantee: with 9:00-18:00 and 10:00-11:00 on one day, the span ends
   at 11:00, an event at 12:00 goes unnoticed and a five-hour task is planned across it.
   */
  lemma OverlappingWindowsUnsafe()
    ensures var working := Working(Overlapping(), 1, 1);
            && Overlapping().Valid() && ReadableDays(Overlapping().windows, 1, 1) && working != []
            && var blocks := BlocksOf(Overlapping(), [FIVE_HOURS],
                                      ScheduleOf(Overlapping(), [FIVE_HOURS], [LUNCH], working).starts);
               |blocks| == 1 && blocks[0].Overlaps(LUNCH.slot)
  {
    OverlappingWorking();
    OverlappingFree();
    assert FirstFit([LONG_SLOT, SHORT_SLOT], 300) == 0;
    var s := ScheduleOf(Overlapping(), [FIVE_HOURS], [LUNCH], [LONG_SLOT, SHORT_SLOT]);
    assert s.starts == [Some(LONG_SLOT.start)];
  }
}

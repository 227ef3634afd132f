/** Greedy placement of ranked tasks into free slots, each followed by a break. */
module Planner {
  import opened Text
  import opened TimeSlots
  import opened FreeTime

  datatype RankedTask = RankedTask(id: string, estimatedMinutes: int, score: real)
  datatype PlannedItem = PlannedItem(taskId: string, startAt: int, endAt: int, score: real)
  datatype UnplannedItem = UnplannedItem(taskId: string, score: real)
  datatype PlannerResult =
    PlannerResult(planned: seq<PlannedItem>, unplanned: seq<UnplannedItem>, window: Option<TimeSlot>)

  datatype PlanningConfig = PlanningConfig(
    windows: seq<WorkingWindow>, minBlock: int, breakMinutes: int, preferWeekdays: bool)
  {
    predicate Valid() {
      minBlock >= 1 && breakMinutes >= 0
    }

    /** Minutes a task occupies without its break. */
    function Required(task: RankedTask): int {
      if task.estimatedMinutes >= minBlock then task.estimatedMinutes else minBlock
    }

    /** Minutes a task takes out of a slot. */
    function Need(task: RankedTask): int {
      Required(task) + breakMinutes
    }

    /** The fewest minutes any task takes out of a slot. */
    function Least(): int {
      minBlock + breakMinutes
    }

    /** A task that takes exactly `minutes` out of a slot. */
    function TaskOf(minutes: int): RankedTask {
      RankedTask("t", minutes - breakMinutes, 0.0)
    }

    /** The time taken by a task placed at `start`, break included. */
    function Block(task: RankedTask, start: int): TimeSlot {
      TimeSlot(start, start + Need(task) * 60)
    }
  }

  // ---- One placement

  predicate Fits(slot: TimeSlot, need: int) {
    slot.DurationMinutes() >= need
  }

  /** The index of the first slot that fits, or the length of the list. */
  function FirstFit(free: seq<TimeSlot>, need: int): (i: nat)
    ensures i <= |free|
    ensures i < |free| ==> Fits(free[i], need)
    ensures forall j :: 0 <= j < i ==> !Fits(free[j], need)
  {
    if free == [] || Fits(free[0], need) then 0 else 1 + FirstFit(free[1..], need)
  }

  datatype Placed = Placed(start: Option<int>, free: seq<TimeSlot>, dropped: seq<TimeSlot>)

  /** What placing one task makes of the free slots; a remainder that is too short is dropped. */
  function PlaceOne(cfg: PlanningConfig, free: seq<TimeSlot>, task: RankedTask): Placed {
    var i := FirstFit(free, cfg.Need(task));
    if i == |free| then Placed(None, free, [])
    else
      var rest := free[..i] + free[i + 1..];
      var remainder := TimeSlot(cfg.Block(task, free[i].start).end, free[i].end);
      if !remainder.Proper() then Placed(Some(free[i].start), rest, [])
      else if remainder.DurationMinutes() >= cfg.minBlock then
        Placed(Some(free[i].start), Sort(rest + [remainder], false), [])
      else Placed(Some(free[i].start), rest, [remainder])
  }

  datatype Schedule = Schedule(starts: seq<Option<int>>, free: seq<TimeSlot>, dropped: seq<TimeSlot>)

  function PlaceAll(cfg: PlanningConfig, free: seq<TimeSlot>, tasks: seq<RankedTask>): (s: Schedule)
    ensures |s.starts| == |tasks|
    decreases |tasks|
  {
    if tasks == [] then Schedule([], free, [])
    else
      var p := PlaceOne(cfg, free, tasks[0]);
      var rest := PlaceAll(cfg, p.free, tasks[1..]);
      Schedule([p.start] + rest.starts, rest.free, p.dropped + rest.dropped)
  }

  function PlannedOf(cfg: PlanningConfig, tasks: seq<RankedTask>, starts: seq<Option<int>>): seq<PlannedItem>
    requires |starts| == |tasks|
  {
    if tasks == [] then []
    else if starts[0].None? then PlannedOf(cfg, tasks[1..], starts[1..])
    else
      [PlannedItem(tasks[0].id, starts[0].value, starts[0].value + cfg.Required(tasks[0]) * 60, tasks[0].score)]
      + PlannedOf(cfg, tasks[1..], starts[1..])
  }

  function UnplannedOf(tasks: seq<RankedTask>, starts: seq<Option<int>>): seq<UnplannedItem>
    requires |starts| == |tasks|
  {
    if tasks == [] then []
    else if starts[0].Some? then UnplannedOf(tasks[1..], starts[1..])
    else [UnplannedItem(tasks[0].id, tasks[0].score)] + UnplannedOf(tasks[1..], starts[1..])
  }

  /** The times taken by the planned tasks, in rank order. */
  function BlocksOf(cfg: PlanningConfig, tasks: seq<RankedTask>, starts: seq<Option<int>>): seq<TimeSlot>
    requires |starts| == |tasks|
  {
    if tasks == [] then []
    else if starts[0].None? then BlocksOf(cfg, tasks[1..], starts[1..])
    else [cfg.Block(tasks[0], starts[0].value)] + BlocksOf(cfg, tasks[1..], starts[1..])
  }

  // ---- Conservation

  lemma PlaceOneConserves(cfg: PlanningConfig, free: seq<TimeSlot>, task: RankedTask, t: int)
    requires cfg.Valid() && AllProper(free)
    ensures var p := PlaceOne(cfg, free, task);
            var block := if p.start.Some? then [cfg.Block(task, p.start.value)] else [];
            && Load(free, t) == Load(p.free, t) + Load(block, t) + Load(p.dropped, t)
            && TotalTime(free) == TotalTime(p.free) + TotalTime(block) + TotalTime(p.dropped)
  {
    hide Sort;
    var i := FirstFit(free, cfg.Need(task));
    if i < |free| {
      var slot, block := free[i], cfg.Block(task, free[i].start);
      assert slot in free && block.end <= slot.end;
      LoadSplit(free, i, t);
      var rest, remainder := free[..i] + free[i + 1..], TimeSlot(block.end, slot.end);
      LoadConcat(rest, [remainder], t);
      SortLoad(rest + [remainder], false, t);
      CutSlot(slot, block, t);
    }
  }

  /** A slot is a block at its start and what is left behind the block. */
  lemma CutSlot(slot: TimeSlot, block: TimeSlot, t: int)
    requires slot.start == block.start <= block.end <= slot.end
    ensures var remainder := TimeSlot(block.end, slot.end);
            && Load([slot], t) == Load([block], t) + Load([remainder], t)
            && TotalTime([slot]) == TotalTime([block]) + TotalTime([remainder])
            && (!remainder.Proper() ==> Load([remainder], t) == 0 && TotalTime([remainder]) == 0)
  {
  }

  lemma PlaceOneSlots(cfg: PlanningConfig, free: seq<TimeSlot>, task: RankedTask, ws: seq<TimeSlot>)
    requires cfg.Valid() && AllProper(free) && AllWithin(free, ws)
    ensures var p := PlaceOne(cfg, free, task);
            && AllProper(p.free) && AllWithin(p.free, ws)
            && (p.start.Some? ==> cfg.Block(task, p.start.value).Proper() && Within(cfg.Block(task, p.start.value), ws))
            && (forall d :: d in p.dropped ==> d.Proper() && d.DurationMinutes() < cfg.minBlock)
  {
    var i := FirstFit(free, cfg.Need(task));
    if i < |free| {
      var slot, block := free[i], cfg.Block(task, free[i].start);
      assert slot in free;
      var w :| w in ws && w.start <= slot.start && slot.end <= w.end;
      assert Within(block, ws);
      var rest, remainder := free[..i] + free[i + 1..], TimeSlot(block.end, slot.end);
      assert remainder.Proper() ==> Within(remainder, ws);
      forall s | s in rest ensures s in free {}
      SortMembers(rest + [remainder], false);
    }
  }

  /** Free time is split, instant by instant, into what is taken, what stays free and what is dropped. */
  lemma {:induction false} PlaceAllConserves(cfg: PlanningConfig, free: seq<TimeSlot>, tasks: seq<RankedTask>,
                                             ws: seq<TimeSlot>, t: int)
    requires cfg.Valid() && AllProper(free) && AllWithin(free, ws)
    ensures var s := PlaceAll(cfg, free, tasks);
            var blocks := BlocksOf(cfg, tasks, s.starts);
            && Load(free, t) == Load(s.free, t) + Load(blocks, t) + Load(s.dropped, t)
            && TotalTime(free) == TotalTime(s.free) + TotalTime(blocks) + TotalTime(s.dropped)
            && AllProper(blocks) && AllWithin(blocks, ws)
            && (forall d :: d in s.dropped ==> d.Proper() && d.DurationMinutes() < cfg.minBlock)
    decreases |tasks|
  {
    if tasks != [] {
      var p := PlaceOne(cfg, free, tasks[0]);
      PlaceOneConserves(cfg, free, tasks[0], t);
      PlaceOneSlots(cfg, free, tasks[0], ws);
      PlaceAllConserves(cfg, p.free, tasks[1..], ws, t);
      var s, rest := PlaceAll(cfg, free, tasks), PlaceAll(cfg, p.free, tasks[1..]);
      assert s.starts[1..] == rest.starts;
      LoadConcat(if p.start.Some? then [cfg.Block(tasks[0], p.start.value)] else [],
                 BlocksOf(cfg, tasks[1..], rest.starts), t);
      LoadConcat(p.dropped, rest.dropped, t);
    }
  }

  // ---- Rejections

  predicate NoneFits(free: seq<TimeSlot>, need: int) {
    forall f :: f in free ==> !Fits(f, need)
  }

  /** Placing a task makes room for nothing that did not fit before. */
  lemma PlaceOneShrinks(cfg: PlanningConfig, free: seq<TimeSlot>, task: RankedTask, need: int)
    requires cfg.Valid() && AllProper(free) && NoneFits(free, need)
    ensures NoneFits(PlaceOne(cfg, free, task).free, need)
  {
    var i := FirstFit(free, cfg.Need(task));
    if i < |free| {
      var slot := free[i];
      assert slot in free && !Fits(slot, need);
      var rest, remainder := free[..i] + free[i + 1..], TimeSlot(cfg.Block(task, slot.start).end, slot.end);
      forall s | s in rest ensures s in free {}
      SortMembers(rest + [remainder], false);
    }
  }

  /** A task that nothing fits is planned nowhere, and nothing fits it when all tasks are placed. */
  lemma {:induction false} NoneFitsStays(cfg: PlanningConfig, free: seq<TimeSlot>, tasks: seq<RankedTask>, need: int)
    requires cfg.Valid() && AllProper(free) && NoneFits(free, need)
    ensures NoneFits(PlaceAll(cfg, free, tasks).free, need)
    ensures forall k :: 0 <= k < |tasks| && cfg.Need(tasks[k]) >= need ==> PlaceAll(cfg, free, tasks).starts[k].None?
    decreases |tasks|
  {
    if tasks != [] {
      var p := PlaceOne(cfg, free, tasks[0]);
      PlaceOneShrinks(cfg, free, tasks[0], need);
      PlaceOneProper(cfg, free, tasks[0]);
      NoneFitsStays(cfg, p.free, tasks[1..], need);
      if p.start.Some? {
        assert free[FirstFit(free, cfg.Need(tasks[0]))] in free;
      }
      forall k | 0 <= k < |tasks| && cfg.Need(tasks[k]) >= need
        ensures PlaceAll(cfg, free, tasks).starts[k].None?
      {
        assert k > 0 ==> tasks[1..][k - 1] == tasks[k];
      }
    }
  }

  lemma PlaceOneProper(cfg: PlanningConfig, free: seq<TimeSlot>, task: RankedTask)
    requires cfg.Valid() && AllProper(free)
    ensures AllProper(PlaceOne(cfg, free, task).free)
  {
    forall f | f in free ensures Within(f, free) {
      assert f.start <= f.start && f.end <= f.end;
    }
    PlaceOneSlots(cfg, free, task, free);
  }

  /**
   A rejected task fits no slot that is left at the end; and a task is never rejected while a later
   one that needs no less time is planned.
   */
  lemma {:induction false} RejectionJustified(cfg: PlanningConfig, free: seq<TimeSlot>, tasks: seq<RankedTask>, a: nat)
    requires cfg.Valid() && AllProper(free) && a < |tasks|
    ensures PlaceAll(cfg, free, tasks).starts[a].None? ==>
              && NoneFits(PlaceAll(cfg, free, tasks).free, cfg.Need(tasks[a]))
              && forall b :: a < b < |tasks| && cfg.Need(tasks[a]) <= cfg.Need(tasks[b]) ==>
                   PlaceAll(cfg, free, tasks).starts[b].None?
    decreases |tasks|
  {
    var p := PlaceOne(cfg, free, tasks[0]);
    PlaceOneProper(cfg, free, tasks[0]);
    if a > 0 {
      RejectionJustified(cfg, p.free, tasks[1..], a - 1);
    } else if p.start.None? {
      NoneFitsStays(cfg, p.free, tasks[1..], cfg.Need(tasks[0]));
    }
  }

  // ---- Filling slots

  /** A task as long as the first slot that takes `n` minutes fills that slot, and leaves nothing to put back. */
  lemma FillFirst(cfg: PlanningConfig, free: seq<TimeSlot>, n: int)
    requires cfg.Valid() && AllProper(free) && n >= cfg.Least() && FirstFit(free, n) < |free|
    ensures var i := FirstFit(free, n);
            var minutes := free[i].DurationMinutes();
            var p := PlaceOne(cfg, free, cfg.TaskOf(minutes));
            && p.start == Some(free[i].start) && p.free == free[..i] + free[i + 1..]
            && cfg.Need(cfg.TaskOf(minutes)) == minutes
            && cfg.Block(cfg.TaskOf(minutes), free[i].start) == TimeSlot(free[i].start, free[i].start + minutes * 60)
  {
    hide Sort, TimeSlot.DurationMinutes, PlanningConfig.Need, PlanningConfig.TaskOf, FirstFit;
    var i := FirstFit(free, n);
    var minutes := free[i].DurationMinutes();
    assert free[i] in free;
    WholeNeed(cfg, free[i], n);
    FirstFitLonger(free, n, minutes);
  }

  /** A task of a slot's whole minutes needs them, and leaves less than a minute of the slot. */
  lemma WholeNeed(cfg: PlanningConfig, slot: TimeSlot, n: int)
    requires slot.Proper() && Fits(slot, n) && n >= cfg.Least()
    ensures var minutes := slot.DurationMinutes();
            var remainder := TimeSlot(slot.start + minutes * 60, slot.end);
            && cfg.Need(cfg.TaskOf(minutes)) == minutes
            && (remainder.Proper() ==> remainder.DurationMinutes() == 0)
  {
  }

  /** Asking for more that the first fitting slot still has finds the same slot. */
  lemma FirstFitLonger(free: seq<TimeSlot>, n: int, more: int)
    requires FirstFit(free, n) < |free| && n <= more && Fits(free[FirstFit(free, n)], more)
    ensures FirstFit(free, more) == FirstFit(free, n)
  {
  }

  // ---- Accounting

  function TaskIds(tasks: seq<RankedTask>): seq<string> {
    seq(|tasks|, i requires 0 <= i < |tasks| => tasks[i].id)
  }

  function PlannedIds(items: seq<PlannedItem>): seq<string> {
    seq(|items|, i requires 0 <= i < |items| => items[i].taskId)
  }

  function UnplannedIds(items: seq<UnplannedItem>): seq<string> {
    seq(|items|, i requires 0 <= i < |items| => items[i].taskId)
  }

  lemma ReportedStep(task: RankedTask, rest: seq<RankedTask>, planned: seq<PlannedItem>, unplanned: seq<UnplannedItem>)
    requires multiset(PlannedIds(planned)) + multiset(UnplannedIds(unplanned)) == multiset(TaskIds(rest))
    ensures forall item: PlannedItem :: item.taskId == task.id ==>
              multiset(PlannedIds([item] + planned)) + multiset(UnplannedIds(unplanned))
              == multiset(TaskIds([task] + rest))
    ensures forall item: UnplannedItem :: item.taskId == task.id ==>
              multiset(PlannedIds(planned)) + multiset(UnplannedIds([item] + unplanned))
              == multiset(TaskIds([task] + rest))
  {
    var a, b, c := PlannedIds(planned), UnplannedIds(unplanned), TaskIds(rest);
    assert TaskIds([task] + rest) == [task.id] + c;
    forall item: PlannedItem | item.taskId == task.id
      ensures PlannedIds([item] + planned) == [task.id] + a {}
    forall item: UnplannedItem | item.taskId == task.id
      ensures UnplannedIds([item] + unplanned) == [task.id] + b {}
    IdInFront(task.id, a, b, c);
    hide PlannedIds, UnplannedIds, TaskIds;
  }

  lemma IdInFront(id: string, a: seq<string>, b: seq<string>, c: seq<string>)
    requires multiset(a) + multiset(b) == multiset(c)
    ensures multiset([id] + a) + multiset(b) == multiset([id] + c) == multiset(a) + multiset([id] + b)
  {
  }

  /** Every ranked task is reported exactly once, planned or unplanned. */
  lemma {:induction false} EveryTaskReported(cfg: PlanningConfig, tasks: seq<RankedTask>, starts: seq<Option<int>>)
    requires |starts| == |tasks|
    ensures multiset(PlannedIds(PlannedOf(cfg, tasks, starts))) + multiset(UnplannedIds(UnplannedOf(tasks, starts)))
         == multiset(TaskIds(tasks))
    ensures |PlannedOf(cfg, tasks, starts)| == |BlocksOf(cfg, tasks, starts)|
  {
    if tasks != [] {
      EveryTaskReported(cfg, tasks[1..], starts[1..]);
      var planned, unplanned := PlannedOf(cfg, tasks[1..], starts[1..]), UnplannedOf(tasks[1..], starts[1..]);
      assert tasks == [tasks[0]] + tasks[1..];
      ReportedStep(tasks[0], tasks[1..], planned, unplanned);
    }
  }

  /** An item is its block without the break. */
  lemma {:induction false} ItemsAreBlocks(cfg: PlanningConfig, tasks: seq<RankedTask>, starts: seq<Option<int>>, k: nat)
    requires |starts| == |tasks| && k < |PlannedOf(cfg, tasks, starts)| == |BlocksOf(cfg, tasks, starts)|
    ensures var item, block := PlannedOf(cfg, tasks, starts)[k], BlocksOf(cfg, tasks, starts)[k];
            item.startAt == block.start && item.endAt + cfg.breakMinutes * 60 == block.end
  {
    if starts[0].Some? {
      if k > 0 {
        ItemsAreBlocks(cfg, tasks[1..], starts[1..], k - 1);
      }
    } else {
      ItemsAreBlocks(cfg, tasks[1..], starts[1..], k);
    }
  }

  /** Both lists of a result keep the order in which the tasks were ranked. */
  lemma {:induction false} ReportsInRankOrder(cfg: PlanningConfig, tasks: seq<RankedTask>, starts: seq<Option<int>>)
    requires |starts| == |tasks|
    ensures InOrder(PlannedIds(PlannedOf(cfg, tasks, starts)), TaskIds(tasks))
    ensures InOrder(UnplannedIds(UnplannedOf(tasks, starts)), TaskIds(tasks))
  {
    if tasks != [] {
      ReportsInRankOrder(cfg, tasks[1..], starts[1..]);
      assert TaskIds(tasks)[1..] == TaskIds(tasks[1..]);
      var planned, unplanned := PlannedOf(cfg, tasks, starts), UnplannedOf(tasks, starts);
      if starts[0].Some? {
        assert planned[1..] == PlannedOf(cfg, tasks[1..], starts[1..]);
        assert PlannedIds(planned)[1..] == PlannedIds(planned[1..]);
      } else {
        assert unplanned[1..] == UnplannedOf(tasks[1..], starts[1..]);
        assert UnplannedIds(unplanned)[1..] == UnplannedIds(unplanned[1..]);
      }
    }
  }

  /** A planned item is one of the ranked tasks, with its score, from where it was placed for its minutes. */
  lemma {:induction false} ItemIsTask(cfg: PlanningConfig, tasks: seq<RankedTask>, starts: seq<Option<int>>, k: nat)
    returns (i: nat)
    requires |starts| == |tasks| && k < |PlannedOf(cfg, tasks, starts)|
    ensures k <= i < |tasks| && starts[i].Some?
    ensures var minutes := if tasks[i].estimatedMinutes < cfg.minBlock then cfg.minBlock else tasks[i].estimatedMinutes;
            PlannedOf(cfg, tasks, starts)[k]
            == PlannedItem(tasks[i].id, starts[i].value, starts[i].value + minutes * 60, tasks[i].score)
  {
    if starts[0].Some? && k == 0 {
      i := 0;
    } else {
      i := ItemIsTask(cfg, tasks[1..], starts[1..], if starts[0].Some? then k - 1 else k);
      i := i + 1;
    }
  }

  /** An unplanned item is one of the ranked tasks that was placed nowhere, with its score. */
  lemma {:induction false} UnplannedIsTask(tasks: seq<RankedTask>, starts: seq<Option<int>>, k: nat)
    returns (i: nat)
    requires |starts| == |tasks| && k < |UnplannedOf(tasks, starts)|
    ensures k <= i < |tasks| && starts[i].None?
    ensures UnplannedOf(tasks, starts)[k] == UnplannedItem(tasks[i].id, tasks[i].score)
  {
    if starts[0].None? && k == 0 {
      i := 0;
    } else {
      i := UnplannedIsTask(tasks[1..], starts[1..], if starts[0].None? then k - 1 else k);
      i := i + 1;
    }
  }

  /** The time of an item with the break behind it. */
  function ItemSlots(cfg: PlanningConfig, items: seq<PlannedItem>): seq<TimeSlot> {
    seq(|items|, k requires 0 <= k < |items| => TimeSlot(items[k].startAt, items[k].endAt + cfg.breakMinutes * 60))
  }

  /** The items reported are the blocks placed. */
  lemma ItemSlotsAreBlocks(cfg: PlanningConfig, tasks: seq<RankedTask>, starts: seq<Option<int>>)
    requires |starts| == |tasks|
    ensures ItemSlots(cfg, PlannedOf(cfg, tasks, starts)) == BlocksOf(cfg, tasks, starts)
  {
    EveryTaskReported(cfg, tasks, starts);
    forall k | 0 <= k < |PlannedOf(cfg, tasks, starts)|
      ensures ItemSlots(cfg, PlannedOf(cfg, tasks, starts))[k] == BlocksOf(cfg, tasks, starts)[k]
    {
      ItemsAreBlocks(cfg, tasks, starts, k);
    }
  }
}

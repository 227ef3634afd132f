/** Working time minus busy time: which instants remain free, and in which slots. */
module FreeTime {
  import opened Text
  import opened TimeSlots

  datatype WorkingWindow =
    WorkingWindow(weekday: int, startHour: int, startMinute: int, endHour: int, endMinute: int)
  {
    /** Both times lie within a day; otherwise reading the window fails. */
    predicate Readable() {
      && 0 <= startHour <= 23 && 0 <= startMinute <= 59
      && 0 <= endHour <= 23 && 0 <= endMinute <= 59
    }

    function On(day: int): TimeSlot {
      TimeSlot(day * DAY + startHour * 3600 + startMinute * 60, day * DAY + endHour * 3600 + endMinute * 60)
    }
  }

  datatype Event = Event(slot: TimeSlot, cancelled: bool, blocking: bool) {
    predicate Blocks(t: int) {
      !cancelled && blocking && slot.Contains(t)
    }
  }

  // ---- Working slots

  function DaySlots(windows: seq<WorkingWindow>, day: int): seq<TimeSlot> {
    if windows == [] then []
    else
      var w := windows[0];
      if w.weekday == IsoWeekday(day) && w.On(day).Proper()
      then [w.On(day)] + DaySlots(windows[1..], day)
      else DaySlots(windows[1..], day)
  }

  function WorkingSlots(windows: seq<WorkingWindow>, day: int, days: nat): seq<TimeSlot> {
    if days == 0 then [] else WorkingSlots(windows, day, days - 1) + DaySlots(windows, day + days - 1)
  }

  predicate ReadableOn(windows: seq<WorkingWindow>, day: int) {
    forall w :: w in windows && w.weekday == IsoWeekday(day) ==> w.Readable()
  }

  predicate ReadableDays(windows: seq<WorkingWindow>, day: int, days: nat) {
    forall d :: day <= d < day + days ==> ReadableOn(windows, d)
  }

  /** The slots from window `i` on are its own, if it has one that day, and those of the later windows. */
  lemma DayStep(windows: seq<WorkingWindow>, day: int, i: nat, slots: seq<TimeSlot>)
    requires i < |windows|
    ensures var w := windows[i];
            var own := if w.weekday == IsoWeekday(day) && w.On(day).Proper() then [w.On(day)] else [];
            slots + DaySlots(windows[i..], day) == slots + own + DaySlots(windows[i + 1..], day)
  {
    hide WorkingWindow.On, IsoWeekday, TimeSlot.Proper;
    var rest := windows[i..];
    assert rest[0] == windows[i] && rest[1..] == windows[i + 1..];
    var own := if rest[0].weekday == IsoWeekday(day) && rest[0].On(day).Proper() then [rest[0].On(day)] else [];
    assert DaySlots(rest, day) == own + DaySlots(rest[1..], day);
  }

  lemma NoDaySlots(day: int, slots: seq<TimeSlot>)
    ensures slots + DaySlots([], day) == slots && [] + slots == slots && slots + [] == slots
  {
  }

  method BuildDaySlots(windows: seq<WorkingWindow>, day: int) returns (r: Option<seq<TimeSlot>>)
    ensures r.Some? <==> ReadableOn(windows, day)
    ensures r.Some? ==> r.value == DaySlots(windows, day)
  {
    hide DaySlots, WorkingWindow.On, IsoWeekday;
    var slots := [];
    NoDaySlots(day, DaySlots(windows, day));
    assert windows[0..] == windows;
    for i := 0 to |windows|
      invariant slots + DaySlots(windows[i..], day) == DaySlots(windows, day)
      invariant forall j :: 0 <= j < i && windows[j].weekday == IsoWeekday(day) ==> windows[j].Readable()
    {
      var w := windows[i];
      DayStep(windows, day, i, slots);
      NoDaySlots(day, slots);
      if w.weekday != IsoWeekday(day) {
        continue;
      }
      if !w.Readable() {
        return None;
      }
      if w.On(day).end <= w.On(day).start {
        continue;
      }
      slots := slots + [w.On(day)];
    }
    assert windows[|windows|..] == [];
    NoDaySlots(day, slots);
    return Some(slots);
  }

  /** The slots cover exactly the instants of the days at which some window is open. */
  ghost predicate CoversWorkingTime(slots: seq<TimeSlot>, windows: seq<WorkingWindow>, day: int, days: nat) {
    forall t :: Load(slots, t) > 0 <==> WorkingAt(windows, day, days, t)
  }

  lemma SlotsCover(windows: seq<WorkingWindow>, day: int, days: nat)
    ensures ReadableDays(windows, day, days) <==> TimesGiven(windows, day, days)
    ensures ReadableDays(windows, day, days) ==>
              CoversWorkingTime(Sort(WorkingSlots(windows, day, days), false), windows, day, days)
  {
    hide WorkingAt, WorkingSlots, Sort, Load;
    ReadableIff(windows, day, days);
    if ReadableDays(windows, day, days) {
      forall t
        ensures Load(Sort(WorkingSlots(windows, day, days), false), t) > 0 <==> WorkingAt(windows, day, days, t)
      {
        SortLoad(WorkingSlots(windows, day, days), false, t);
        WorkingExactly(windows, day, days, t);
      }
    }
  }

  /** The working slots of `days` days by start, or nothing when a window of one of them cannot be read. */
  method BuildWorkingSlots(windows: seq<WorkingWindow>, startDay: int, days: nat) returns (r: Option<seq<TimeSlot>>)
    ensures r.Some? <==> ReadableDays(windows, startDay, days)
    ensures r.Some? <==> TimesGiven(windows, startDay, days)
    ensures r.Some? ==> r.value == Sort(WorkingSlots(windows, startDay, days), false)
    ensures r.Some? ==> CoversWorkingTime(r.value, windows, startDay, days)
  {
    hide TimesGiven, CoversWorkingTime, DaySlots, Sort, ReadableOn;
    SlotsCover(windows, startDay, days);
    var slots := [];
    for offset := 0 to days
      invariant slots == WorkingSlots(windows, startDay, offset)
      invariant ReadableDays(windows, startDay, offset)
    {
      var more := BuildDaySlots(windows, startDay + offset);
      if more.None? {
        return None;
      }
      slots := slots + more.value;
    }
    return Some(Sort(slots, false));
  }

  /** No two windows of one weekday share an instant. */
  predicate WindowsDisjoint(windows: seq<WorkingWindow>) {
    forall i, j :: 0 <= i < j < |windows| && windows[i].weekday == windows[j].weekday
                   && windows[i].On(0).Proper() && windows[j].On(0).Proper() ==>
      !windows[i].On(0).Overlaps(windows[j].On(0))
  }

  lemma {:induction false} DaySlotsProper(windows: seq<WorkingWindow>, day: int)
    ensures AllProper(DaySlots(windows, day))
    ensures forall s :: s in DaySlots(windows, day) ==>
              exists i :: 0 <= i < |windows| && windows[i].weekday == IsoWeekday(day) && s == windows[i].On(day)
  {
    if windows != [] {
      DaySlotsProper(windows[1..], day);
      forall s | s in DaySlots(windows[1..], day)
        ensures exists i :: 0 <= i < |windows| && windows[i].weekday == IsoWeekday(day) && s == windows[i].On(day)
      {
        var i :| 0 <= i < |windows[1..]| && windows[1..][i].weekday == IsoWeekday(day) && s == windows[1..][i].On(day);
        assert windows[i + 1] == windows[1..][i];
      }
    }
  }

  lemma {:induction false} WorkingSlotsProper(windows: seq<WorkingWindow>, day: int, days: nat)
    ensures AllProper(WorkingSlots(windows, day, days))
    decreases days
  {
    if days > 0 {
      WorkingSlotsProper(windows, day, days - 1);
      OneMoreDayProper(windows, day, days - 1);
    }
  }

  lemma OneMoreDayProper(windows: seq<WorkingWindow>, day: int, n: nat)
    requires AllProper(WorkingSlots(windows, day, n))
    ensures AllProper(WorkingSlots(windows, day, n + 1))
  {
    hide DaySlots, WorkingWindow.On, TimeSlot.Proper;
    DaySlotsProper(windows, day + n);
  }

  /** Two proper windows that do not overlap share no instant of any day. */
  lemma ApartOnDay(v: WorkingWindow, w: WorkingWindow, day: int, t: int)
    requires v.On(day).Proper() && w.On(day).Proper() && !v.On(0).Overlaps(w.On(0)) && v.On(day).Contains(t)
    ensures !w.On(day).Contains(t)
  {
  }

  /** Where the first window lies, no slot of the others does. */
  lemma NoOtherSlot(windows: seq<WorkingWindow>, day: int, t: int, s: TimeSlot)
    requires WindowsDisjoint(windows) && windows != [] && s in DaySlots(windows[1..], day)
    requires windows[0].weekday == IsoWeekday(day) && windows[0].On(day).Proper() && windows[0].On(day).Contains(t)
    ensures !s.Contains(t)
  {
    var rest := windows[1..];
    DaySlotsProper(rest, day);
    var i :| 0 <= i < |rest| && rest[i].weekday == IsoWeekday(day) && s == rest[i].On(day);
    assert windows[i + 1] == rest[i];
    ApartOnDay(windows[0], windows[i + 1], day, t);
  }

  lemma {:induction false} DayLoad(windows: seq<WorkingWindow>, day: int, t: int)
    requires WindowsDisjoint(windows)
    ensures Load(DaySlots(windows, day), t) <= 1
  {
    if windows != [] {
      DayLoad(windows[1..], day, t);
      var w, rest := windows[0], DaySlots(windows[1..], day);
      if w.weekday == IsoWeekday(day) && w.On(day).Proper() && w.On(day).Contains(t) {
        LoadPositive(rest, t);
        forall s | s in rest ensures !s.Contains(t) { NoOtherSlot(windows, day, t, s); }
      }
      LoadConcat([w.On(day)], rest, t);
    }
  }

  lemma DayLoadElsewhere(windows: seq<WorkingWindow>, day: int, t: int)
    requires ReadableOn(windows, day)
    ensures Load(DaySlots(windows, day), t) > 0 ==> day * DAY <= t < (day + 1) * DAY
  {
    LoadPositive(DaySlots(windows, day), t);
    if s :| s in DaySlots(windows, day) && s.Contains(t) {
      DaySlotsProper(windows, day);
      var i :| 0 <= i < |windows| && windows[i].weekday == IsoWeekday(day) && s == windows[i].On(day);
      assert windows[i] in windows;
    }
  }

  /** Windows that do not overlap give working slots that do not, over any number of days. */
  lemma {:induction false} WorkingLoad(windows: seq<WorkingWindow>, day: int, days: nat, t: int)
    requires WindowsDisjoint(windows) && ReadableDays(windows, day, days)
    ensures Load(WorkingSlots(windows, day, days), t) <= 1
    ensures Load(WorkingSlots(windows, day, days), t) > 0 ==> t < (day + days) * DAY
  {
    if days > 0 {
      WorkingLoad(windows, day, days - 1, t);
      var last := day + days - 1;
      assert ReadableOn(windows, last);
      DayLoad(windows, last, t);
      DayLoadElsewhere(windows, last, t);
      LoadConcat(WorkingSlots(windows, day, days - 1), DaySlots(windows, last), t);
    }
  }

  /** The day is one of the window's weekday; weekdays are counted from Monday, as 1. */
  predicate FallsOn(w: WorkingWindow, day: int) {
    1 <= w.weekday <= 7 && (day - w.weekday) % 7 == 0
  }

  /** Every window that falls on one of the days has hours and minutes in their range. */
  ghost predicate TimesGiven(windows: seq<WorkingWindow>, day: int, days: nat) {
    forall d, w :: day <= d < day + days && w in windows && FallsOn(w, d) ==>
      0 <= w.startHour < 24 && 0 <= w.startMinute < 60 && 0 <= w.endHour < 24 && 0 <= w.endMinute < 60
  }

  lemma ReadableIff(windows: seq<WorkingWindow>, day: int, days: nat)
    ensures ReadableDays(windows, day, days) <==> TimesGiven(windows, day, days)
  {
    forall d, w | day <= d < day + days && w in windows ensures w.weekday == IsoWeekday(d) <==> FallsOn(w, d) {}
    if TimesGiven(windows, day, days) {
      forall d | day <= d < day + days ensures ReadableOn(windows, d) {
        forall w | w in windows && w.weekday == IsoWeekday(d) ensures w.Readable() {
          assert FallsOn(w, d);
        }
      }
    } else {
      var d, w :| day <= d < day + days && w in windows && FallsOn(w, d) && !w.Readable();
      assert !ReadableOn(windows, d);
    }
  }

  /** The window is open at the instant: on its weekday, from its first minute up to its last. */
  predicate OpenAt(w: WorkingWindow, t: int) {
    && FallsOn(w, t / 86400)
    && w.startHour * 3600 + w.startMinute * 60 <= t % 86400 < w.endHour * 3600 + w.endMinute * 60
  }

  /** The instant is working time: one of the days, and some window is open. */
  predicate WorkingAt(windows: seq<WorkingWindow>, day: int, days: nat, t: int) {
    day <= t / 86400 < day + days && exists w :: w in windows && OpenAt(w, t)
  }

  /** On its own weekday, a readable window covers the instants of the day at which it is open. */
  lemma WindowOnDay(w: WorkingWindow, day: int, t: int)
    requires w.weekday == IsoWeekday(day) ==> w.Readable()
    ensures w.weekday == IsoWeekday(day) && w.On(day).Contains(t) <==> day == t / 86400 && OpenAt(w, t)
  {
    var seconds := t - day * 86400;
    if 0 <= seconds < 86400 {
      assert t / 86400 == day && t % 86400 == seconds;
    }
  }

  lemma {:induction false} DayLoadExact(windows: seq<WorkingWindow>, day: int, t: int)
    requires ReadableOn(windows, day)
    ensures Load(DaySlots(windows, day), t) > 0 <==> WorkingAt(windows, day, 1, t)
  {
    hide WorkingWindow.On, OpenAt, IsoWeekday, WorkingWindow.Readable;
    if windows != [] {
      var w, rest := windows[0], windows[1..];
      assert windows == [w] + rest && forall v :: v in rest ==> v in windows;
      DayLoadExact(rest, day, t);
      WindowOnDay(w, day, t);
      LoadConcat([w.On(day)], DaySlots(rest, day), t);
      assert WorkingAt(windows, day, 1, t) <==> (day == t / 86400 && OpenAt(w, t)) || WorkingAt(rest, day, 1, t);
    }
  }

  /** The working slots cover exactly the instants of the days at which some window is open. */
  lemma {:induction false} WorkingExactly(windows: seq<WorkingWindow>, day: int, days: nat, t: int)
    requires ReadableDays(windows, day, days)
    ensures Load(WorkingSlots(windows, day, days), t) > 0 <==> WorkingAt(windows, day, days, t)
    decreases days
  {
    hide DaySlots, OpenAt;
    if days > 0 {
      var last := day + days - 1;
      WorkingExactly(windows, day, days - 1, t);
      assert ReadableOn(windows, last);
      DayLoadExact(windows, last, t);
      LoadConcat(WorkingSlots(windows, day, days - 1), DaySlots(windows, last), t);
    }
  }

  // ---- Busy intervals

  function Later(a: int, b: int): int {
    if a >= b then a else b
  }

  function Earlier(a: int, b: int): int {
    if a <= b then a else b
  }

  function BusyOf(events: seq<Event>, window: TimeSlot): seq<TimeSlot> {
    if events == [] then []
    else
      var e := events[0];
      if !e.cancelled && e.blocking && e.slot.Proper() && e.slot.Overlaps(window)
      then [TimeSlot(Later(e.slot.start, window.start), Earlier(e.slot.end, window.end))] + BusyOf(events[1..], window)
      else BusyOf(events[1..], window)
  }

  function BusyPart(e: Event, window: TimeSlot): seq<TimeSlot> {
    if !e.cancelled && e.blocking && e.slot.Proper() && e.slot.Overlaps(window)
    then [TimeSlot(Later(e.slot.start, window.start), Earlier(e.slot.end, window.end))] else []
  }

  lemma BusyStep(events: seq<Event>, window: TimeSlot, i: nat, done: seq<TimeSlot>)
    requires i < |events|
    ensures done + BusyOf(events[i..], window) == done + BusyPart(events[i], window) + BusyOf(events[i + 1..], window)
  {
    hide TimeSlot.Proper, TimeSlot.Overlaps, Later, Earlier;
    var rest := events[i..];
    assert rest[0] == events[i] && rest[1..] == events[i + 1..];
    assert BusyOf(rest, window) == BusyPart(rest[0], window) + BusyOf(rest[1..], window);
  }

  lemma NoneBusy(window: TimeSlot, done: seq<TimeSlot>)
    ensures done + BusyOf([], window) == done && [] + done == done && done + [] == done
  {
  }

  /** The blocking events that reach into the window, cut to it, by start. */
  method CollectBusyIntervals(events: seq<Event>, window: TimeSlot) returns (intervals: seq<TimeSlot>)
    ensures intervals == Sort(BusyOf(events, window), false)
  {
    hide BusyOf, Later, Earlier, Sort;
    intervals := [];
    NoneBusy(window, BusyOf(events, window));
    assert events[0..] == events;
    for i := 0 to |events|
      invariant intervals + BusyOf(events[i..], window) == BusyOf(events, window)
    {
      var e := events[i];
      BusyStep(events, window, i, intervals);
      NoneBusy(window, intervals);
      if e.cancelled || !e.blocking || e.slot.end <= e.slot.start {
        continue;
      }
      if e.slot.Overlaps(window) {
        intervals := intervals + [TimeSlot(Later(e.slot.start, window.start), Earlier(e.slot.end, window.end))];
      }
    }
    assert events[|events|..] == [];
    NoneBusy(window, intervals);
    intervals := Sort(intervals, false);
  }

  /** Inside the window an instant is busy exactly when a blocking event covers it. */
  lemma {:induction false} BusyExactly(events: seq<Event>, window: TimeSlot, t: int)
    requires window.Proper()
    ensures AllProper(BusyOf(events, window))
    ensures window.Contains(t) ==>
              (Load(BusyOf(events, window), t) > 0 <==> exists e :: e in events && e.Blocks(t))
  {
    if events != [] {
      BusyExactly(events[1..], window, t);
      assert events == [events[0]] + events[1..];
      if window.Contains(t) {
        assert (exists e :: e in events && e.Blocks(t))
          <==> (events[0].Blocks(t) || exists e :: e in events[1..] && e.Blocks(t));
      }
    }
  }

  // ---- Subtraction

  function SubtractInterval(slot: TimeSlot, busy: TimeSlot): seq<TimeSlot> {
    if !slot.Overlaps(busy) then [slot]
    else
      (if slot.start < busy.start then [TimeSlot(slot.start, busy.start)] else [])
      + (if busy.end < slot.end then [TimeSlot(busy.end, slot.end)] else [])
  }

  function SubtractFrom(slots: seq<TimeSlot>, busy: TimeSlot): seq<TimeSlot> {
    if slots == [] then [] else SubtractInterval(slots[0], busy) + SubtractFrom(slots[1..], busy)
  }

  function SubtractAll(slots: seq<TimeSlot>, busy: seq<TimeSlot>): seq<TimeSlot>
    decreases |busy|
  {
    if busy == [] then slots else SubtractAll(SubtractFrom(slots, busy[0]), busy[1..])
  }

  /** Keeps the slots of at least (or, to see what is lost, of less than) `minutes`. */
  function LongEnough(slots: seq<TimeSlot>, minutes: int, keep: bool): seq<TimeSlot> {
    if slots == [] then []
    else if (slots[0].DurationMinutes() >= minutes) == keep then [slots[0]] + LongEnough(slots[1..], minutes, keep)
    else LongEnough(slots[1..], minutes, keep)
  }

  lemma CutStep(slots: seq<TimeSlot>, busy: TimeSlot, i: nat, done: seq<TimeSlot>)
    requires i < |slots|
    ensures done + SubtractFrom(slots[i..], busy)
         == done + SubtractInterval(slots[i], busy) + SubtractFrom(slots[i + 1..], busy)
  {
    hide SubtractInterval;
    var rest := slots[i..];
    assert rest[0] == slots[i] && rest[1..] == slots[i + 1..];
    assert SubtractFrom(rest, busy) == SubtractInterval(rest[0], busy) + SubtractFrom(rest[1..], busy);
  }

  lemma KeepStep(slots: seq<TimeSlot>, minutes: int, i: nat, done: seq<TimeSlot>)
    requires i < |slots|
    ensures done + LongEnough(slots[i..], minutes, true)
         == done + (if slots[i].DurationMinutes() >= minutes then [slots[i]] else [])
            + LongEnough(slots[i + 1..], minutes, true)
  {
    hide TimeSlot.DurationMinutes;
    var rest := slots[i..];
    assert rest[0] == slots[i] && rest[1..] == slots[i + 1..];
    assert LongEnough(rest, minutes, true)
        == (if rest[0].DurationMinutes() >= minutes then [rest[0]] else []) + LongEnough(rest[1..], minutes, true);
  }

  lemma BusyCutStep(slots: seq<TimeSlot>, busy: seq<TimeSlot>, i: nat)
    requires i < |busy|
    ensures SubtractAll(slots, busy[i..]) == SubtractAll(SubtractFrom(slots, busy[i]), busy[i + 1..])
  {
    hide SubtractFrom;
    assert busy[i..][0] == busy[i] && busy[i..][1..] == busy[i + 1..];
  }

  lemma NothingCut(slots: seq<TimeSlot>, busy: TimeSlot, minutes: int)
    ensures slots + SubtractFrom([], busy) == slots && slots + LongEnough([], minutes, true) == slots
    ensures SubtractAll(slots, []) == slots && [] + slots == slots && slots + [] == slots
  {
  }

  /** Cuts one busy interval out of every slot. */
  method SubtractOne(slots: seq<TimeSlot>, busy: TimeSlot) returns (updated: seq<TimeSlot>)
    ensures updated == SubtractFrom(slots, busy)
  {
    hide SubtractFrom, SubtractInterval;
    updated := [];
    NothingCut(SubtractFrom(slots, busy), busy, 0);
    assert slots[0..] == slots;
    for i := 0 to |slots|
      invariant updated + SubtractFrom(slots[i..], busy) == SubtractFrom(slots, busy)
    {
      CutStep(slots, busy, i, updated);
      updated := updated + SubtractInterval(slots[i], busy);
    }
    assert slots[|slots|..] == [];
    NothingCut(updated, busy, 0);
  }

  method SubtractBusy(workingSlots: seq<TimeSlot>, busy: seq<TimeSlot>, minBlock: int) returns (free: seq<TimeSlot>)
    ensures free == Sort(LongEnough(SubtractAll(workingSlots, busy), minBlock, true), false)
  {
    hide SubtractAll, SubtractFrom, LongEnough, Sort, TimeSlot.DurationMinutes;
    free := workingSlots;
    assert busy[0..] == busy;
    for i := 0 to |busy|
      invariant SubtractAll(free, busy[i..]) == SubtractAll(workingSlots, busy)
    {
      BusyCutStep(free, busy, i);
      free := SubtractOne(free, busy[i]);
    }
    assert busy[|busy|..] == [];
    NothingCut(free, TimeSlot(0, 0), minBlock);
    var kept := [];
    NothingCut(LongEnough(free, minBlock, true), TimeSlot(0, 0), minBlock);
    assert free[0..] == free;
    for i := 0 to |free|
      invariant kept + LongEnough(free[i..], minBlock, true) == LongEnough(free, minBlock, true)
    {
      KeepStep(free, minBlock, i, kept);
      NothingCut(kept, TimeSlot(0, 0), minBlock);
      if free[i].DurationMinutes() >= minBlock {
        kept := kept + [free[i]];
      }
    }
    assert free[|free|..] == [];
    NothingCut(kept, TimeSlot(0, 0), minBlock);
    free := Sort(kept, false);
  }

  /** `f` lies inside one slot of the list. */
  ghost predicate Within(f: TimeSlot, ws: seq<TimeSlot>) {
    exists w :: w in ws && w.start <= f.start && f.end <= w.end
  }

  ghost predicate AllWithin(fs: seq<TimeSlot>, ws: seq<TimeSlot>) {
    forall f :: f in fs ==> Within(f, ws)
  }

  lemma {:induction false} SubtractFromLoad(slots: seq<TimeSlot>, busy: TimeSlot, t: int)
    requires busy.Proper() && AllProper(slots)
    ensures Load(SubtractFrom(slots, busy), t) == if busy.Contains(t) then 0 else Load(slots, t)
  {
    if slots != [] {
      SubtractFromLoad(slots[1..], busy, t);
      LoadConcat(SubtractInterval(slots[0], busy), SubtractFrom(slots[1..], busy), t);
    }
  }

  lemma {:induction false} SubtractFromSlots(slots: seq<TimeSlot>, busy: TimeSlot, ws: seq<TimeSlot>)
    requires busy.Proper() && AllProper(slots) && AllWithin(slots, ws)
    ensures AllProper(SubtractFrom(slots, busy)) && AllWithin(SubtractFrom(slots, busy), ws)
  {
    if slots != [] {
      assert slots[0] in slots && forall s :: s in slots[1..] ==> s in slots;
      SubtractFromSlots(slots[1..], busy, ws);
      var w :| w in ws && w.start <= slots[0].start && slots[0].end <= w.end;
      forall f | f in SubtractInterval(slots[0], busy) ensures f.Proper() && Within(f, ws) {
        assert w.start <= f.start && f.end <= w.end;
      }
    }
  }

  /** Subtraction is exact at every instant, and never joins or moves slots. */
  lemma {:induction false} SubtractAllExact(slots: seq<TimeSlot>, busy: seq<TimeSlot>, ws: seq<TimeSlot>, t: int)
    requires AllProper(slots) && AllProper(busy) && AllWithin(slots, ws)
    ensures Load(SubtractAll(slots, busy), t) == if Load(busy, t) > 0 then 0 else Load(slots, t)
    ensures AllProper(SubtractAll(slots, busy)) && AllWithin(SubtractAll(slots, busy), ws)
    decreases |busy|
  {
    if busy != [] {
      assert busy[0] in busy && forall b :: b in busy[1..] ==> b in busy;
      SubtractFromLoad(slots, busy[0], t);
      SubtractFromSlots(slots, busy[0], ws);
      SubtractAllExact(SubtractFrom(slots, busy[0]), busy[1..], ws, t);
    }
  }

  /** Dropping short slots loses them whole, and nothing else. */
  lemma {:induction false} LongEnoughSplits(slots: seq<TimeSlot>, minutes: int, t: int)
    ensures Load(slots, t) == Load(LongEnough(slots, minutes, true), t) + Load(LongEnough(slots, minutes, false), t)
    ensures TotalTime(slots)
         == TotalTime(LongEnough(slots, minutes, true)) + TotalTime(LongEnough(slots, minutes, false))
  {
    if slots != [] {
      LongEnoughSplits(slots[1..], minutes, t);
    }
  }

  lemma {:induction false} LongEnoughMembers(slots: seq<TimeSlot>, minutes: int, keep: bool)
    ensures forall s ::
              s in LongEnough(slots, minutes, keep) <==> s in slots && (s.DurationMinutes() >= minutes) == keep
  {
    if slots != [] {
      LongEnoughMembers(slots[1..], minutes, keep);
      assert slots == [slots[0]] + slots[1..];
    }
  }

  /**
   The free slots cover exactly the working instants that no busy interval covers, as slots that
   each lie in one working slot, except for whole fragments shorter than the minimum block.
   */
  lemma FreeTimeExact(working: seq<TimeSlot>, busy: seq<TimeSlot>, minBlock: int, t: int)
    requires AllProper(working) && AllProper(busy)
    ensures var all := SubtractAll(working, busy);
            var free, lost := Sort(LongEnough(all, minBlock, true), false), LongEnough(all, minBlock, false);
            && Load(free, t) + Load(lost, t) == (if Load(busy, t) > 0 then 0 else Load(working, t))
            && AllProper(free) && AllWithin(free, working) && AllWithin(lost, working)
            && (forall s :: s in lost ==> s.DurationMinutes() < minBlock)
            && (forall s :: s in free ==> s.DurationMinutes() >= minBlock)
            && Sorted(free, false)
  {
    var all := SubtractAll(working, busy);
    forall f | f in working ensures Within(f, working) {
      assert f.start <= f.start && f.end <= f.end;
    }
    SubtractAllExact(working, busy, working, t);
    LongEnoughSplits(all, minBlock, t);
    LongEnoughMembers(all, minBlock, true);
    LongEnoughMembers(all, minBlock, false);
    SortLoad(LongEnough(all, minBlock, true), false, t);
    SortMembers(LongEnough(all, minBlock, true), false);
    SortFacts(LongEnough(all, minBlock, true), false);
  }
}

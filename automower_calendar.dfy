/**
 * The mower calendar: weekly mowing tasks expanded into dated windows,
 * the window that contains "now", the events over a range, and the
 * update of one task from an edited event.
 *
 * Times are whole seconds counted from a Monday midnight in local time
 * (time zones and daylight-saving shifts are not modelled); a date is the
 * number of whole days since then, so its weekday is the date modulo 7
 * with 0 for Monday. "Now" and "the start of today" are parameters.
 */
module AutomowerCalendar {
  import opened Wrappers
  import Text

  const SECONDS_PER_DAY: int := 86400
  const SECONDS_PER_MINUTE: int := 60

  /** The default horizon of the expansion, in days. */
  const DEFAULT_INTERVAL: int := 7

  /** Lower-case weekday names, Monday first, as `strftime("%A").lower()` spells them. */
  const DAY_NAMES: seq<string> := ["monday", "tuesday", "wednesday", "thursday", "friday", "saturday", "sunday"]

  /** A weekly task: start and duration in minutes, one flag per weekday, and an optional work area. */
  datatype Task = Task(
    start: int,
    duration: int,
    monday: bool, tuesday: bool, wednesday: bool, thursday: bool,
    friday: bool, saturday: bool, sunday: bool,
    workAreaId: Option<int>)

  datatype WorkArea = WorkArea(name: string, cuttingHeight: int)

  /** The mower's calendar tasks and its work areas; `workAreas` is None when they are not a dictionary. */
  datatype MowerAttributes = MowerAttributes(tasks: seq<Task>, workAreas: Option<map<int, WorkArea>>)

  /** One dated mowing window. */
  datatype Window = Window(
    day: int, start: int, end: int,
    workAreaId: int, workArea: string, cuttingHeight: int, uid: string)

  datatype Event = Event(start: int, end: int, summary: string, description: string, location: string, uid: string)

  datatype CalendarError = UnknownWorkArea(id: int) | MalformedUid(uid: string) | TaskIndexOutOfRange(index: int)

  // ---------------------------------------------------------------------
  // Days

  function Date(t: int): int { t / SECONDS_PER_DAY }

  function Weekday(t: int): (w: nat)
    ensures w < 7
  {
    Date(t) % 7
  }

  /** Moving a time by whole days moves its date by as many. */
  lemma DayShift(t: int, days: int)
    ensures Date(t + days * SECONDS_PER_DAY) == Date(t) + days
  {
    var q, r := t / SECONDS_PER_DAY, t % SECONDS_PER_DAY;
    assert t + days * SECONDS_PER_DAY == (q + days) * SECONDS_PER_DAY + r;
  }

  function Flag(task: Task, weekday: nat): bool
    requires weekday < 7
  {
    match weekday
    case 0 => task.monday
    case 1 => task.tuesday
    case 2 => task.wednesday
    case 3 => task.thursday
    case 4 => task.friday
    case 5 => task.saturday
    case _ => task.sunday
  }

  /** The task with one weekday flag set to true. */
  function SetFlag(task: Task, weekday: nat): (t: Task)
    requires weekday < 7
    ensures forall d | 0 <= d < 7 :: Flag(t, d) == (d == weekday || Flag(task, d))
    ensures t.start == task.start && t.duration == task.duration && t.workAreaId == task.workAreaId
  {
    match weekday
    case 0 => task.(monday := true)
    case 1 => task.(tuesday := true)
    case 2 => task.(wednesday := true)
    case 3 => task.(thursday := true)
    case 4 => task.(friday := true)
    case 5 => task.(saturday := true)
    case _ => task.(sunday := true)
  }

  /** A missing (or zero) work-area id counts as work area 0. */
  function WorkAreaIdOf(task: Task): (id: int)
    ensures task.workAreaId.Some? ==> id == task.workAreaId.value
    ensures task.workAreaId.None? ==> id == 0
  {
    match task.workAreaId
    case None => 0
    case Some(id) => id
  }

  // ---------------------------------------------------------------------
  // Uids: "{index}#{work area id}#{weekday name}"

  function Uid(index: int, workAreaId: int, dayName: string): string
  {
    Text.Join([Text.IntToString(index), Text.IntToString(workAreaId), dayName], '#')
  }

  /** `uid.split("#")` into exactly three fields; the first two are returned. */
  function UidFields(uid: string): (r: Option<(string, string)>)
    ensures r.Some? <==> |Text.SplitOn(uid, '#')| == 3
    ensures r.Some? ==> r.value == (Text.SplitOn(uid, '#')[0], Text.SplitOn(uid, '#')[1])
  {
    var parts := Text.SplitOn(uid, '#');
    if |parts| == 3 then Some((parts[0], parts[1])) else None
  }

  /** A uid built for a window splits back into its task index and its work-area id. */
  lemma {:induction false} UidRoundTrip(index: int, workAreaId: int, dayName: string)
    requires '#' !in dayName
    ensures UidFields(Uid(index, workAreaId, dayName)).Some?
    ensures Text.ParseInt(UidFields(Uid(index, workAreaId, dayName)).value.0) == Some(index)
    ensures Text.ParseInt(UidFields(Uid(index, workAreaId, dayName)).value.1) == Some(workAreaId)
  {
    var parts := [Text.IntToString(index), Text.IntToString(workAreaId), dayName];
    Text.SplitJoin(parts, '#');
  }

  // ---------------------------------------------------------------------
  // The expansion (`daterange`), as a specification

  /** The window of a task on the day that starts at `day`. */
  function DayWindow(task: Task, index: int, workAreaId: int, area: WorkArea, day: int): (w: Window)
    ensures w.day == day
    ensures w.start == day + task.start * SECONDS_PER_MINUTE
    ensures w.end == w.start + task.duration * SECONDS_PER_MINUTE
    ensures w.uid == Uid(index, workAreaId, DAY_NAMES[Weekday(day)])
  {
    Window(day,
           day + task.start * SECONDS_PER_MINUTE,
           day + (task.start + task.duration) * SECONDS_PER_MINUTE,
           workAreaId, area.name, area.cuttingHeight,
           Uid(index, workAreaId, DAY_NAMES[Weekday(day)]))
  }

  /** The windows of one task over `count` days from `cursor`, in day order. */
  function TaskWindows(task: Task, index: int, workAreaId: int, area: WorkArea, cursor: int, count: nat): (ws: seq<Window>)
    ensures |ws| <= count
    decreases count
  {
    if count == 0 then []
    else
      var day := cursor + (count - 1) * SECONDS_PER_DAY;
      TaskWindows(task, index, workAreaId, area, cursor, count - 1)
        + (if Flag(task, Weekday(day)) then [DayWindow(task, index, workAreaId, area, day)] else [])
  }

  /**
   * Every window of a task falls on a day of the horizon whose weekday flag
   * is set, starts `task.start` minutes into that day, lasts `task.duration`
   * minutes and carries the uid of its task, work area and weekday.
   */
  lemma {:induction false} TaskWindowsSound(task: Task, index: int, workAreaId: int, area: WorkArea, cursor: int, count: nat)
    ensures forall w | w in TaskWindows(task, index, workAreaId, area, cursor, count) ::
      && Flag(task, Weekday(w.day))
      && w.start == w.day + task.start * SECONDS_PER_MINUTE
      && w.end == w.start + task.duration * SECONDS_PER_MINUTE
      && Date(cursor) <= Date(w.day) < Date(cursor) + count
      && w.uid == Uid(index, workAreaId, DAY_NAMES[Weekday(w.day)])
    decreases count
  {
    if count > 0 {
      TaskWindowsSound(task, index, workAreaId, area, cursor, count - 1);
      DayShift(cursor, count - 1);
    }
  }

  /** Every day of the horizon whose weekday flag is set has its window. */
  lemma {:induction false} TaskWindowsComplete(task: Task, index: int, workAreaId: int, area: WorkArea, cursor: int, count: nat)
    ensures forall k | 0 <= k < count && Flag(task, Weekday(cursor + k * SECONDS_PER_DAY)) ::
      DayWindow(task, index, workAreaId, area, cursor + k * SECONDS_PER_DAY) in TaskWindows(task, index, workAreaId, area, cursor, count)
    decreases count
  {
    if count > 0 {
      TaskWindowsComplete(task, index, workAreaId, area, cursor, count - 1);
    }
  }

  /** Strictly increasing dates: at most one window per day, in day order. */
  predicate InDayOrder(ws: seq<Window>)
  {
    forall i, j | 0 <= i < j < |ws| :: Date(ws[i].day) < Date(ws[j].day)
  }

  /** A task's windows are in day order, one at most per day. */
  lemma {:induction false} TaskWindowsInDayOrder(task: Task, index: int, workAreaId: int, area: WorkArea, cursor: int, count: nat)
    ensures InDayOrder(TaskWindows(task, index, workAreaId, area, cursor, count))
    decreases count
  {
    if count > 0 {
      var init := TaskWindows(task, index, workAreaId, area, cursor, count - 1);
      var day := cursor + (count - 1) * SECONDS_PER_DAY;
      TaskWindowsInDayOrder(task, index, workAreaId, area, cursor, count - 1);
      if Flag(task, Weekday(day)) {
        var w := DayWindow(task, index, workAreaId, area, day);
        assert TaskWindows(task, index, workAreaId, area, cursor, count) == init + [w];
        assert forall v | v in init :: Date(v.day) < Date(w.day) by {
          TaskWindowsSound(task, index, workAreaId, area, cursor, count - 1);
          DayShift(cursor, count - 1);
          assert Date(w.day) == Date(cursor) + count - 1;
        }
        InDayOrderSnoc(init, w);
      } else {
        assert TaskWindows(task, index, workAreaId, area, cursor, count) == init;
      }
    }
  }

  lemma InDayOrderSnoc(ws: seq<Window>, w: Window)
    requires InDayOrder(ws)
    requires forall v | v in ws :: Date(v.day) < Date(w.day)
    ensures InDayOrder(ws + [w])
  {
    var r := ws + [w];
    forall i, j | 0 <= i < j < |r| ensures Date(r[i].day) < Date(r[j].day) {
      assert r[i] == ws[i];
      if j < |ws| {
        assert r[j] == ws[j];
      } else {
        assert ws[i] in ws;
      }
    }
  }

  /** Days the cursor still has to go before the end date. */
  function DaysLeft(cursor: int, endDate: int): (n: nat)
    ensures Date(cursor) < endDate ==> Date(cursor) + n == endDate
    ensures Date(cursor) >= endDate ==> n == 0
  {
    if Date(cursor) < endDate then endDate - Date(cursor) else 0
  }

  /**
   * The periods of tasks `k..` with the day cursor at `cursor`. The cursor
   * is shared by all tasks and not reset between them, exactly as the loop
   * that this specifies advances it.
   */
  function PeriodsFrom(tasks: seq<Task>, areas: map<int, WorkArea>, k: nat, cursor: int, endDate: int)
    : Result<seq<seq<Window>>, CalendarError>
    requires k <= |tasks|
    decreases |tasks| - k
  {
    if k == |tasks| then Success([])
    else
      var id := WorkAreaIdOf(tasks[k]);
      if id !in areas then Failure(UnknownWorkArea(id))
      else
        var n := DaysLeft(cursor, endDate);
        var period := TaskWindows(tasks[k], k, id, areas[id], cursor, n);
        match PeriodsFrom(tasks, areas, k + 1, cursor + n * SECONDS_PER_DAY, endDate)
        case Failure(e) => Failure(e)
        case Success(rest) => Success([period] + rest)
  }

  /** `daterange(start, interval)`: one period per task when the work areas form a dictionary, none otherwise. */
  function Expand(attrs: MowerAttributes, start: int, interval: int): Result<seq<seq<Window>>, CalendarError>
  {
    match attrs.workAreas
    case None => Success([])
    case Some(areas) => PeriodsFrom(attrs.tasks, areas, 0, start, Date(start) + interval)
  }

  function Prepend(done: seq<seq<Window>>, rest: Result<seq<seq<Window>>, CalendarError>): Result<seq<seq<Window>>, CalendarError>
  {
    match rest
    case Failure(e) => Failure(e)
    case Success(ps) => Success(done + ps)
  }

  /** Once the cursor has reached the end date, every further task gets an empty period. */
  lemma {:induction false} ExhaustedCursorGivesEmptyPeriods(tasks: seq<Task>, areas: map<int, WorkArea>, k: nat, cursor: int, endDate: int)
    requires k <= |tasks|
    requires Date(cursor) >= endDate
    ensures PeriodsFrom(tasks, areas, k, cursor, endDate).Success? ==>
      var ps := PeriodsFrom(tasks, areas, k, cursor, endDate).value;
      |ps| == |tasks| - k && forall p | p in ps :: p == []
    decreases |tasks| - k
  {
    if k < |tasks| {
      ExhaustedCursorGivesEmptyPeriods(tasks, areas, k + 1, cursor, endDate);
    }
  }

  /**
   * The expansion has one period per task; the first holds the first
   * task's windows over the horizon, and every later period is empty
   * because the day cursor is not reset between tasks.
   */
  lemma {:induction false} ExpandShape(attrs: MowerAttributes, start: int, interval: int)
    requires attrs.workAreas.Some? && |attrs.tasks| > 0
    requires Expand(attrs, start, interval).Success?
    ensures var ps := Expand(attrs, start, interval).value;
      var areas := attrs.workAreas.value;
      var id := WorkAreaIdOf(attrs.tasks[0]);
      && |ps| == |attrs.tasks|
      && id in areas
      && ps[0] == TaskWindows(attrs.tasks[0], 0, id, areas[id], start, if interval > 0 then interval else 0)
      && forall k | 1 <= k < |ps| :: ps[k] == []
  {
    var areas := attrs.workAreas.value;
    var endDate := Date(start) + interval;
    var n := DaysLeft(start, endDate);
    var next := start + n * SECONDS_PER_DAY;
    DayShift(start, n);
    ExhaustedCursorGivesEmptyPeriods(attrs.tasks, areas, 1, next, endDate);
    var id := WorkAreaIdOf(attrs.tasks[0]);
    var rest := PeriodsFrom(attrs.tasks, areas, 1, next, endDate);
    assert id in areas && rest.Success?;
    var ps := Expand(attrs, start, interval).value;
    assert ps == [TaskWindows(attrs.tasks[0], 0, id, areas[id], start, n)] + rest.value;
    assert n == if interval > 0 then interval else 0;
    forall k | 1 <= k < |ps| ensures ps[k] == [] {
      assert ps[k] == rest.value[k - 1];
      assert rest.value[k - 1] in rest.value;
    }
  }

  /** The expansion fails exactly when the work areas form a dictionary that lacks some task's work area. */
  lemma {:induction false} ExpandFailsOnUnknownArea(tasks: seq<Task>, areas: map<int, WorkArea>, k: nat, cursor: int, endDate: int)
    requires k <= |tasks|
    ensures PeriodsFrom(tasks, areas, k, cursor, endDate).Failure?
      <==> exists j | k <= j < |tasks| :: WorkAreaIdOf(tasks[j]) !in areas
    decreases |tasks| - k
  {
    if k < |tasks| {
      var n := DaysLeft(cursor, endDate);
      ExpandFailsOnUnknownArea(tasks, areas, k + 1, cursor + n * SECONDS_PER_DAY, endDate);
    }
  }

  /** One step of the specification: the period of task `k`, then the others from the advanced cursor. */
  lemma PeriodsStep(tasks: seq<Task>, areas: map<int, WorkArea>, k: nat, cursor: int, endDate: int, done: seq<seq<Window>>)
    requires k < |tasks| && WorkAreaIdOf(tasks[k]) in areas
    ensures var id := WorkAreaIdOf(tasks[k]);
      var n := DaysLeft(cursor, endDate);
      Prepend(done, PeriodsFrom(tasks, areas, k, cursor, endDate))
        == Prepend(done + [TaskWindows(tasks[k], k, id, areas[id], cursor, n)],
                   PeriodsFrom(tasks, areas, k + 1, cursor + n * SECONDS_PER_DAY, endDate))
  {
    var id := WorkAreaIdOf(tasks[k]);
    var n := DaysLeft(cursor, endDate);
    var period := TaskWindows(tasks[k], k, id, areas[id], cursor, n);
    var rest := PeriodsFrom(tasks, areas, k + 1, cursor + n * SECONDS_PER_DAY, endDate);
    if rest.Success? {
      assert (done + [period]) + rest.value == done + ([period] + rest.value);
    }
  }

  /** A task whose work area is unknown makes the whole expansion fail. */
  lemma PeriodsFailStep(tasks: seq<Task>, areas: map<int, WorkArea>, k: nat, cursor: int, endDate: int, done: seq<seq<Window>>)
    requires k < |tasks| && WorkAreaIdOf(tasks[k]) !in areas
    ensures Prepend(done, PeriodsFrom(tasks, areas, k, cursor, endDate)) == Failure(UnknownWorkArea(WorkAreaIdOf(tasks[k])))
  {
  }

  // ---------------------------------------------------------------------
  // The loops themselves

  /** The inner loop of `daterange`: advance the day cursor to the end date, collecting the task's windows. */
  method WalkDays(task: Task, index: int, workAreaId: int, area: WorkArea, first: int, endDate: int)
    returns (period: seq<Window>, cursor: int)
    ensures period == TaskWindows(task, index, workAreaId, area, first, DaysLeft(first, endDate))
    ensures cursor == first + DaysLeft(first, endDate) * SECONDS_PER_DAY
  {
    period := [];
    cursor := first;
    ghost var days: nat := 0;
    while Date(cursor) < endDate
      invariant cursor == first + days * SECONDS_PER_DAY
      invariant Date(cursor) == Date(first) + days
      invariant days <= DaysLeft(first, endDate)
      invariant period == TaskWindows(task, index, workAreaId, area, first, days)
      decreases endDate - Date(cursor)
    {
      var weekday := Weekday(cursor);
      assert TaskWindows(task, index, workAreaId, area, first, days + 1)
        == period + (if Flag(task, weekday) then [DayWindow(task, index, workAreaId, area, cursor)] else []);
      if Flag(task, weekday) {
        period := period + [DayWindow(task, index, workAreaId, area, cursor)];
      }
      DayShift(first, days + 1);
      cursor := cursor + SECONDS_PER_DAY;
      days := days + 1;
    }
  }

  /** `daterange`: walk the tasks, and for each walk the shared day cursor up to the end date. */
  method DateRange(attrs: MowerAttributes, startDate: int, interval: int) returns (r: Result<seq<seq<Window>>, CalendarError>)
    ensures r == Expand(attrs, startDate, interval)
  {
    var periods: seq<seq<Window>> := [];
    var saveDt := Date(startDate);
    var cursor := startDate;
    if attrs.workAreas.None? {
      // Without work areas no task yields a period; the walk over the tasks changes nothing.
      return Success([]);
    }
    var areas := attrs.workAreas.value;
    var endDate := saveDt + interval;
    ghost var spec := PeriodsFrom(attrs.tasks, areas, 0, startDate, endDate);
    assert spec.Success? ==> [] + spec.value == spec.value;
    for i := 0 to |attrs.tasks|
      invariant spec == Prepend(periods, PeriodsFrom(attrs.tasks, areas, i, cursor, endDate))
    {
      var task := attrs.tasks[i];
      var workAreaId := WorkAreaIdOf(task);
      if workAreaId !in areas {
        PeriodsFailStep(attrs.tasks, areas, i, cursor, endDate, periods);
        return Failure(UnknownWorkArea(workAreaId));
      }
      var area := areas[workAreaId];
      ghost var first := cursor;
      var period;
      period, cursor := WalkDays(task, i, workAreaId, area, cursor, endDate);
      PeriodsStep(attrs.tasks, areas, i, first, endDate, periods);
      periods := periods + [period];
    }
    assert periods + [] == periods;
    r := Success(periods);
  }

  function Flatten(ps: seq<seq<Window>>): seq<Window>
    decreases |ps|
  {
    if |ps| == 0 then [] else Flatten(ps[..|ps| - 1]) + ps[|ps| - 1]
  }

  lemma {:induction false} FlattenAppend(a: seq<seq<Window>>, b: seq<seq<Window>>)
    ensures Flatten(a + b) == Flatten(a) + Flatten(b)
    decreases |b|
  {
    if |b| > 0 {
      assert (a + b)[..|a + b| - 1] == a + b[..|b| - 1];
      FlattenAppend(a, b[..|b| - 1]);
    } else {
      assert a + b == a;
    }
  }

  function ToEvent(w: Window): (e: Event)
    ensures e.start == w.start && e.end == w.end && e.uid == w.uid && e.location == w.workArea
  {
    Event(w.start, w.end,
          w.workArea + " - " + Text.IntToString(w.cuttingHeight) + "%",
          "Mow the lawn in the " + w.workArea + " area",
          w.workArea, w.uid)
  }

  function ToEvents(ws: seq<Window>): (es: seq<Event>)
    ensures |es| == |ws|
    ensures forall k | 0 <= k < |ws| :: es[k] == ToEvent(ws[k])
  {
    seq(|ws|, k requires 0 <= k < |ws| => ToEvent(ws[k]))
  }

  /** A window covers `now` when `now` lies strictly between its start and its end. */
  predicate Covers(w: Window, now: int) { w.start < now < w.end }

  /** The first window, in task-then-day order, that covers `now`. */
  method FirstCovering(ps: seq<seq<Window>>, now: int) returns (r: Option<Window>)
    ensures r.None? ==> forall w | w in Flatten(ps) :: !Covers(w, now)
    ensures r.Some? ==>
      var flat := Flatten(ps);
      exists k | 0 <= k < |flat| :: flat[k] == r.value && Covers(flat[k], now) && forall k' | 0 <= k' < k :: !Covers(flat[k'], now)
  {
    for i := 0 to |ps|
      invariant forall w | w in Flatten(ps[..i]) :: !Covers(w, now)
    {
      var events := ps[i];
      for j := 0 to |events|
        invariant forall w | w in Flatten(ps[..i]) + events[..j] :: !Covers(w, now)
      {
        var event := events[j];
        if now > event.start && now < event.end {
          FlattenAt(ps, i, j);
          return Some(event);
        }
      }
      assert events[..|events|] == events;
      assert ps[..i + 1][..i] == ps[..i];
    }
    assert ps[..|ps|] == ps;
    r := None;
  }

  /** Where a window of one period sits in the flattened periods. */
  lemma FlattenAt(ps: seq<seq<Window>>, i: nat, j: nat)
    requires i < |ps| && j < |ps[i]|
    ensures var before := Flatten(ps[..i]) + ps[i][..j];
      && |before| < |Flatten(ps)|
      && Flatten(ps)[|before|] == ps[i][j]
      && forall k | 0 <= k < |before| :: Flatten(ps)[k] == before[k]
  {
    assert ps == ps[..i] + [ps[i]] + ps[i + 1..];
    FlattenAppend(ps[..i] + [ps[i]], ps[i + 1..]);
    FlattenAppend(ps[..i], [ps[i]]);
    assert Flatten([ps[i]]) == ps[i] by {
      assert [ps[i]][..0] == [];
    }
    assert ps[i] == ps[i][..j] + ps[i][j..];
  }

  /**
   * `event`: expand from the start of today over the default horizon and
   * return the first window that covers `now`, or None.
   */
  method CurrentEvent(attrs: MowerAttributes, todayStart: int, now: int) returns (r: Result<Option<Event>, CalendarError>)
    ensures r.Failure? <==> Expand(attrs, todayStart, DEFAULT_INTERVAL).Failure?
    ensures r.Success? && r.value.None? ==>
      forall w | w in Flatten(Expand(attrs, todayStart, DEFAULT_INTERVAL).value) :: !Covers(w, now)
    ensures r.Success? && r.value.Some? ==>
      var flat := Flatten(Expand(attrs, todayStart, DEFAULT_INTERVAL).value);
      exists k | 0 <= k < |flat| ::
        && Covers(flat[k], now)
        && r.value.value == ToEvent(flat[k])
        && forall k' | 0 <= k' < k :: !Covers(flat[k'], now)
  {
    var expanded := DateRange(attrs, todayStart, DEFAULT_INTERVAL);
    if expanded.Failure? {
      return Failure(expanded.error);
    }
    var found := FirstCovering(expanded.value, now);
    if found.None? {
      return Success(None);
    }
    r := Success(Some(ToEvent(found.value)));
  }

  /** The events of the expanded windows, one per window, in order. */
  method CollectEvents(ps: seq<seq<Window>>) returns (calendarEvents: seq<Event>)
    ensures calendarEvents == ToEvents(Flatten(ps))
  {
    calendarEvents := [];
    for i := 0 to |ps|
      invariant calendarEvents == ToEvents(Flatten(ps[..i]))
    {
      var events := ps[i];
      ghost var done := Flatten(ps[..i]);
      for j := 0 to |events|
        invariant calendarEvents == ToEvents(done + events[..j])
      {
        assert done + events[..j + 1] == (done + events[..j]) + [events[j]];
        ToEventsSnoc(done + events[..j], events[j]);
        calendarEvents := calendarEvents + [ToEvent(events[j])];
      }
      assert Flatten(ps[..i + 1]) == done + events by {
        assert ps[..i + 1][..i] == ps[..i];
      }
      assert events[..|events|] == events;
    }
    assert ps[..|ps|] == ps;
  }

  lemma ToEventsSnoc(ws: seq<Window>, w: Window)
    ensures ToEvents(ws + [w]) == ToEvents(ws) + [ToEvent(w)]
  {
  }

  /** `async_get_events`: one event per expanded window, in task-then-day order, over whole days of the range. */
  method GetEvents(attrs: MowerAttributes, startDate: int, endDate: int) returns (r: Result<seq<Event>, CalendarError>)
    ensures var expanded := Expand(attrs, startDate, (endDate - startDate) / SECONDS_PER_DAY);
      && (r.Failure? <==> expanded.Failure?)
      && (r.Success? ==> r.value == ToEvents(Flatten(expanded.value)))
  {
    var expanded := DateRange(attrs, startDate, (endDate - startDate) / SECONDS_PER_DAY);
    if expanded.Failure? {
      return Failure(expanded.error);
    }
    var calendarEvents := CollectEvents(expanded.value);
    r := Success(calendarEvents);
  }

  // ---------------------------------------------------------------------
  // Updating a task from an edited event

  /** Python's `int()` of a true quotient: truncation toward zero. */
  function TruncDiv(x: int, d: nat): (q: int)
    requires d > 0
    ensures x >= 0 ==> 0 <= q && 0 <= x - q * d < d
    ensures x < 0 ==> q <= 0 && -(d as int) < x - q * d <= 0
  {
    if x >= 0 then
      FloorRemainder(x, d);
      x / d
    else
      var y := -x;
      FloorRemainder(y, d);
      NegatedProduct(y / d, d);
      -(y / d)
  }

  lemma FloorRemainder(y: int, d: int)
    requires d > 0
    ensures 0 <= y - (y / d) * d < d
  {
    assert y - (y / d) * d == y % d;
  }

  lemma NegatedProduct(a: int, d: int)
    ensures (-a) * d == -(a * d)
  {
  }

  /**
   * The task after an edit: the weekday of the new start flagged, the start
   * set to the minute of day of the new start, and the duration set to the
   * whole minutes between start and end.
   */
  function UpdatedTask(task: Task, dtStart: int, dtEnd: int): (t: Task)
    ensures Flag(t, Weekday(dtStart))
    ensures forall d | 0 <= d < 7 && d != Weekday(dtStart) :: Flag(t, d) == Flag(task, d)
    ensures t.start == (dtStart % SECONDS_PER_DAY) / SECONDS_PER_MINUTE
    ensures t.duration == TruncDiv(dtEnd - dtStart, 60)
    ensures t.workAreaId == task.workAreaId
  {
    var flagged := SetFlag(task, Weekday(dtStart));
    flagged.(start := (dtStart % SECONDS_PER_DAY) / SECONDS_PER_MINUTE,
             duration := TruncDiv(dtEnd - dtStart, SECONDS_PER_MINUTE))
  }

  /**
   * An edit on whole minutes round-trips: expanding the updated task over the
   * day of the new start gives exactly one window, from the new start to the
   * new end.
   */
  lemma UpdatedTaskWindow(task: Task, index: int, workAreaId: int, area: WorkArea, dtStart: int, dtEnd: int)
    requires dtStart % SECONDS_PER_MINUTE == 0 && (dtEnd - dtStart) % SECONDS_PER_MINUTE == 0 && dtEnd >= dtStart
    ensures var t := UpdatedTask(task, dtStart, dtEnd);
      var day := Date(dtStart) * SECONDS_PER_DAY;
      var ws := TaskWindows(t, index, workAreaId, area, day, 1);
      |ws| == 1 && ws[0].start == dtStart && ws[0].end == dtEnd
  {
    var t := UpdatedTask(task, dtStart, dtEnd);
    var day := Date(dtStart) * SECONDS_PER_DAY;
    DayShift(0, Date(dtStart));
    assert Weekday(day) == Weekday(dtStart);
    MinuteOfDay(dtStart);
    WholeMinutes(dtEnd - dtStart);
    assert TaskWindows(t, index, workAreaId, area, day, 1) == [DayWindow(t, index, workAreaId, area, day)];
  }

  /** A time on a whole minute is its day's start plus its minute of day. */
  lemma MinuteOfDay(x: int)
    requires x % SECONDS_PER_MINUTE == 0
    ensures Date(x) * SECONDS_PER_DAY + ((x % SECONDS_PER_DAY) / SECONDS_PER_MINUTE) * SECONDS_PER_MINUTE == x
  {
    var m := x / 60;
    assert x == 60 * m;
    var a, b := m / 1440, m % 1440;
    assert m == 1440 * a + b;
    assert x == 86400 * a + 60 * b;
    assert x / 86400 == a && x % 86400 == 60 * b;
  }

  /** A non-negative whole number of minutes, in seconds, truncates to itself. */
  lemma WholeMinutes(x: int)
    requires x >= 0 && x % SECONDS_PER_MINUTE == 0
    ensures TruncDiv(x, 60) * SECONDS_PER_MINUTE == x
  {
  }

  /** A Python list index: negative values count from the end. */
  function ListPosition(index: int, length: nat): (pos: Option<nat>)
    ensures pos.Some? <==> -(length as int) <= index < length
    ensures pos.Some? ==> pos.value < length && (pos.value == index || pos.value == index + length)
  {
    if 0 <= index < length then Some(index)
    else if -(length as int) <= index < 0 then Some(index + length)
    else None
  }

  /** The calendar as the entity sees it: the tasks of the mower's latest status. */
  class CalendarEntity {
    var tasks: seq<Task>

    constructor (tasks: seq<Task>)
      ensures this.tasks == tasks
    {
      this.tasks := tasks;
    }

    /**
     * `async_update_event`: split the uid and parse its work-area id, take
     * the freshly fetched status, parse the task index and update that task.
     * The result is the work-area id sent along with the whole task list.
     */
    method UpdateEvent(uid: string, dtStart: int, dtEnd: int, status: seq<Task>) returns (r: Result<int, CalendarError>)
      modifies this
      ensures var fields := UidFields(uid);
        fields.None? || Text.ParseInt(fields.value.1).None? ==>
          r == Failure(MalformedUid(uid)) && tasks == old(tasks)
      ensures var fields := UidFields(uid);
        fields.Some? && Text.ParseInt(fields.value.1).Some? ==>
          match Text.ParseInt(fields.value.0)
          case None => r == Failure(MalformedUid(uid)) && tasks == status
          case Some(index) =>
            match ListPosition(index, |status|)
            case None => r == Failure(TaskIndexOutOfRange(index)) && tasks == status
            case Some(pos) =>
              && r == Success(Text.ParseInt(fields.value.1).value)
              && tasks == status[pos := UpdatedTask(status[pos], dtStart, dtEnd)]
    {
      var parts := Text.SplitOn(uid, '#');
      if |parts| != 3 {
        return Failure(MalformedUid(uid));
      }
      var workAreaId := Text.ParseInt(parts[1]);
      if workAreaId.None? {
        return Failure(MalformedUid(uid));
      }
      tasks := status;
      var index := Text.ParseInt(parts[0]);
      if index.None? {
        return Failure(MalformedUid(uid));
      }
      var pos := ListPosition(index.value, |tasks|);
      if pos.None? {
        return Failure(TaskIndexOutOfRange(index.value));
      }
      var calendar := tasks[pos.value];
      calendar := SetFlag(calendar, Weekday(dtStart));
      calendar := calendar.(start := (dtStart % SECONDS_PER_DAY) / SECONDS_PER_MINUTE);
      calendar := calendar.(duration := TruncDiv(dtEnd - dtStart, SECONDS_PER_MINUTE));
      tasks := tasks[pos.value := calendar];
      r := Success(workAreaId.value);
    }
  }
}

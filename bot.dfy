/**
 * The command handlers of the bot over its data file. The file's content is
 * the `file` field of a Store; every handler reads the whole map, changes its
 * copy, and writes the whole map back only when the command succeeds.
 */
module Bot {
  import opened Outcomes
  import opened Dates
  import opened Schedule
  import opened Calendar

  class Store {
    /** What `daily_plans.json` holds. */
    var file: ScheduleMap
    /** How many times `save_data` has rewritten the file. */
    var writes: nat

    ghost predicate Valid()
      reads this
    {
      WellFormedMap(file)
    }

    /**
     * Start-up: an existing file is used as it is; a missing one is created
     * holding the empty map.
     */
    constructor Open(existing: Option<ScheduleMap>)
      requires existing.Some? ==> WellFormedMap(existing.value)
      ensures Valid()
      ensures existing.Some? ==> file == existing.value && writes == 0
      ensures existing.None? ==> file == map[] && writes == 1
    {
      if existing.Some? {
        file, writes := existing.value, 0;
      } else {
        file, writes := map[], 1;
      }
    }

    /** `load_data()`. */
    method Load() returns (data: ScheduleMap)
      requires Valid()
      ensures data == file && WellFormedMap(data)
    {
      data := file;
    }

    /** `save_data(data)`: the whole file is replaced. */
    method Save(data: ScheduleMap)
      requires WellFormedMap(data)
      modifies this
      ensures Valid()
      ensures file == data && writes == old(writes) + 1
    {
      file, writes := data, writes + 1;
    }

    /**
     * start_plan: a date strptime accepts and that has no plan yet gets the
     * eight standard slots, all holding NoTask.
     */
    method StartPlan(date: string) returns (status: Status)
      requires Valid()
      modifies this
      ensures Valid()
      ensures status == Failed(InvalidDateFormat) <==> ParseDate(date).None?
      ensures status == Failed(AlreadyExists) <==> ParseDate(date).Some? && date in old(file)
      ensures status == Done <==> ParseDate(date).Some? && date !in old(file)
      ensures status.Failed? ==> file == old(file) && writes == old(writes)
      ensures status.Done? ==> file == old(file)[date := NewDayPlan()] && writes == old(writes) + 1
      ensures status.Done? ==> file.Keys == old(file).Keys + {date} && |file| == |old(file)| + 1
      ensures StandardDays(old(file)) ==> StandardDays(file)
    {
      if ParseDate(date).None? {
        return Failed(InvalidDateFormat);
      }
      var data := Load();
      if date in data {
        return Failed(AlreadyExists);
      }
      data := data[date := NewDayPlan()];
      Save(data);
      return Done;
    }

    /**
     * add_task: the date must have a plan and the slot must be one of its
     * labels; then that slot's text becomes `task`, verbatim.
     */
    method AddTask(date: string, period: string, task: string) returns (status: Status)
      requires Valid()
      modifies this
      ensures Valid()
      ensures status == Failed(UnknownDate) <==> date !in old(file)
      ensures status == Failed(UnknownSlot) <==> date in old(file) && period !in Labels(old(file)[date])
      ensures status == Done <==> date in old(file) && period in Labels(old(file)[date])
      ensures status.Failed? ==> file == old(file) && writes == old(writes)
      ensures status.Done? ==>
        && file == old(file)[date := SetTask(old(file)[date], period, task)]
        && writes == old(writes) + 1
        && file.Keys == old(file).Keys
        && Labels(file[date]) == Labels(old(file)[date])
        && Lookup(file[date], period) == task
        && (forall l :: l in Labels(old(file)[date]) && l != period ==> Lookup(file[date], l) == Lookup(old(file)[date], l))
      ensures forall d :: d in old(file) && d != date ==> d in file && file[d] == old(file)[d]
      ensures StandardDays(old(file)) ==> StandardDays(file)
    {
      var data := Load();
      if date !in data {
        return Failed(UnknownDate);
      }
      if period !in Labels(data[date]) {
        return Failed(UnknownSlot);
      }
      var day := data[date];
      LookupSetTask(day, period, task, period);
      forall l | l in Labels(day) && l != period
        ensures Lookup(SetTask(day, period, task), l) == Lookup(day, l)
      {
        LookupSetTask(day, period, task, l);
      }
      data := data[date := SetTask(day, period, task)];
      Save(data);
      return Done;
    }

    /** view_plan: the plan of a date that has one. */
    method ViewPlan(date: string) returns (r: Result<DayPlan>)
      requires Valid()
      ensures r == Err(UnknownDate) <==> date !in file
      ensures r.Ok? ==> date in file && r.value == file[date]
      ensures date in file ==> r == Ok(file[date])
    {
      var data := Load();
      if date !in data {
        return Err(UnknownDate);
      }
      return Ok(data[date]);
    }

    /**
     * view_calendar: the argument is checked first, then the month's grid,
     * `monthGrid(year, month)`, is rendered against the loaded map.
     */
    method ViewCalendar(yearMonth: string, monthGrid: (int, int) -> seq<seq<nat>>, today: Date)
      returns (r: Result<seq<Field>>)
      requires Valid()
      ensures r == CalendarView(yearMonth, monthGrid, today, file)
    {
      var ym := ParseYearMonth(yearMonth);
      if ym.Err? {
        return Err(ym.error);
      }
      var year, month := ym.value.year, ym.value.month as nat;
      var weeks := monthGrid(year, month);
      var data := Load();
      r := RenderWeeks(year, month, weeks, today, data);
    }

    /**
     * complete_task: the same checks as add_task; then the marker is put in
     * front of the slot's current text.
     */
    method CompleteTask(date: string, period: string) returns (status: Status)
      requires Valid()
      modifies this
      ensures Valid()
      ensures status == Failed(UnknownDate) <==> date !in old(file)
      ensures status == Failed(UnknownSlot) <==> date in old(file) && period !in Labels(old(file)[date])
      ensures status == Done <==> date in old(file) && period in Labels(old(file)[date])
      ensures status.Failed? ==> file == old(file) && writes == old(writes)
      ensures status.Done? ==>
        && file == old(file)[date := CompleteSlot(old(file)[date], period)]
        && writes == old(writes) + 1
        && file.Keys == old(file).Keys
        && Labels(file[date]) == Labels(old(file)[date])
        && Lookup(file[date], period) == DoneMarker + Lookup(old(file)[date], period)
        && (forall l :: l in Labels(old(file)[date]) && l != period ==> Lookup(file[date], l) == Lookup(old(file)[date], l))
      ensures forall d :: d in old(file) && d != date ==> d in file && file[d] == old(file)[d]
      ensures StandardDays(old(file)) ==> StandardDays(file)
    {
      var data := Load();
      if date !in data {
        return Failed(UnknownDate);
      }
      if period !in Labels(data[date]) {
        return Failed(UnknownSlot);
      }
      data := data[date := CompleteSlot(data[date], period)];
      Save(data);
      return Done;
    }
  }

  /**
   * What a caller can rely on: a new day keeps its eight slots through one
   * add_task and two complete_task commands, and the first slot ends up with
   * the marker twice.
   */
  method PlanADay(store: Store, date: string, task: string) returns (status: Status)
    requires store.Valid() && date !in store.file && ParseDate(date).Some?
    modifies store
    ensures status == Done && date in store.file && Labels(store.file[date]) == StandardLabels
    ensures Lookup(store.file[date], StandardLabels[0]) == DoneMarker + (DoneMarker + task)
  {
    var first := StandardLabels[0];
    status := store.StartPlan(date);
    assert Labels(store.file[date]) == StandardLabels;
    status := store.AddTask(date, first, task);
    assert Labels(store.file[date]) == StandardLabels;
    assert Lookup(store.file[date], first) == task;
    status := store.CompleteTask(date, first);
    assert Labels(store.file[date]) == StandardLabels;
    assert Lookup(store.file[date], first) == DoneMarker + task;
    status := store.CompleteTask(date, first);
  }
}

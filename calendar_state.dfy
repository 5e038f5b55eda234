/**
 * `CalendarState`: the slot collection, the per-provider template store and the id counter,
 * with the source's loops. Each method is proved to leave exactly the state the functions of
 * `SlotEngine`, `MonthGrid` and `Templates` describe, so their lemmas carry over to it.
 * The wall clock is the parameter `today`.
 */
module CalendarStates {
  import opened Wrappers
  import opened Dates
  import opened Parsing
  import opened SlotEngine
  import opened MonthGrid
  import opened Templates

  /** How a `generate_monthly_slots` event ends: the month is regenerated, or the horizon error is toasted. */
  datatype Generation = Generated | BeyondHorizon

  class CalendarState {
    var slots: seq<Slot>
    /** provider id, then `"%Y-%m"` month, to the template last used for it */
    var availabilityConfigs: map<int, map<Month, Template>>
    var selectedProviderId: int
    /** the first of the shown month */
    var selectedMonth: Date
    var availabilityTemplate: Template
    /** `{}` until a slot is clicked */
    var selectedSlot: Option<Slot>
    var slotCounter: int

    /**
     * The state's invariant: the shown month is a valid first of month, the collection keeps the
     * engine's invariant (ids increasing and handed out by the counter, no provider holds one
     * start twice), and the edited template has a positive slot length and a sorted weekday
     * list without repetitions.
     */
    predicate Valid()
      reads this
    {
      && ValidDate(selectedMonth) && selectedMonth.day == 1
      && StoreInvariant(slots, slotCounter)
      && availabilityTemplate.slotDuration > 0
      && StrictlyIncreasing(availabilityTemplate.weekdays)
    }

    /** The field defaults, with `selected_month` the first of the current month. */
    constructor(today: Date)
      requires ValidDate(today)
      ensures Valid()
      ensures slots == [] && availabilityConfigs == map[] && selectedProviderId == 1
      ensures selectedMonth == FirstOfMonth(today) && availabilityTemplate == DefaultTemplate
      ensures selectedSlot == None && slotCounter == 0
    {
      slots := [];
      availabilityConfigs := map[];
      selectedProviderId := 1;
      selectedMonth := FirstOfMonth(today);
      availabilityTemplate := DefaultTemplate;
      selectedSlot := None;
      slotCounter := 0;
    }

    /** `on_load`: show the current month. */
    method OnLoad(today: Date)
      requires Valid() && ValidDate(today)
      modifies this`selectedMonth
      ensures Valid() && selectedMonth == FirstOfMonth(today)
    {
      selectedMonth := FirstOfMonth(today);
    }

    /**
     * `_generate_time_slots`: step a cursor from the start time while a whole slot still fits
     * before the end time, skipping starts the provider already holds in `slots` and numbering
     * the others with the counter. A time that does not parse yields no slots.
     */
    method GenerateTimeSlots(d: Date, t: Template, providerId: int) returns (generated: seq<Slot>)
      requires DayLoopTerminates(t)
      modifies this`slotCounter
      ensures generated == DaySlots(slots, d, t, providerId, old(slotCounter) + 1)
      ensures slotCounter == old(slotCounter) + |generated|
    {
      var existing := slots;
      var firstId := slotCounter + 1;
      var startTime := ParseClock(t.startTime);
      var endTime := ParseClock(t.endTime);
      if startTime.None? || endTime.None? {
        DaySlotsMalformed(existing, d, t, providerId, firstId);
        return [];
      }
      var duration := t.slotDuration;
      var end := endTime.value;
      var current := startTime.value;
      ghost var target := DaySlots(existing, d, t, providerId, firstId);
      DaySlotsOfWindow(existing, d, t, providerId, firstId, current, end);
      generated := [];
      assert [] + target == target;
      while current + duration <= end
        invariant duration > 0 || current + duration > end
        invariant slotCounter == firstId - 1 + |generated|
        invariant DayLoopInvariant(existing, d, current, end, duration, providerId, slotCounter, generated, target)
        decreases end - current
      {
        var next := current + duration;
        if !SlotExists(existing, providerId, DateTime(d, current)) {
          var id := slotCounter + 1;
          DayLoopEmit(existing, d, current, end, duration, providerId, slotCounter, generated, target, next, id);
          slotCounter := id;
          generated := generated + [NewSlot(id, providerId, d, current, duration)];
        } else {
          DayLoopSkip(existing, d, current, end, duration, providerId, slotCounter, generated, target, next);
        }
        current := next;
      }
      DayLoopDone(existing, d, current, end, duration, providerId, slotCounter, generated, target);
    }

    /** `update_availability_template` */
    method UpdateAvailabilityTemplate(providerId: int, month: Month, t: Template)
      modifies this`availabilityConfigs
      ensures availabilityConfigs == RecordTemplate(old(availabilityConfigs), providerId, month, t)
    {
      var inner := if providerId in availabilityConfigs then availabilityConfigs[providerId] else map[];
      availabilityConfigs := availabilityConfigs[providerId := inner[month := t]];
    }

    /**
     * The day walk of `generate_monthly_slots`: from `monthDate` to the end of its month, generate
     * the slots of each day whose weekday the template lists, against the collection as it stands.
     */
    method WalkMonth(providerId: int, monthDate: Date, t: Template) returns (newSlots: seq<Slot>)
      requires ValidDate(monthDate) && GenerationTerminates(t)
      modifies this`slotCounter
      ensures newSlots == MonthSlots(slots, monthDate, PlanOf(t), providerId, old(slotCounter) + 1)
      ensures slotCounter == old(slotCounter) + |newSlots|
    {
      var existing := slots;
      ghost var plan := PlanOf(t);
      ghost var total := MonthSlots(existing, monthDate, plan, providerId, slotCounter + 1);
      newSlots := [];
      var current := monthDate;
      assert [] + total == total;
      while current.month == monthDate.month
        invariant ValidDate(current) && slots == existing
        invariant slotCounter == old(slotCounter) + |newSlots|
        invariant current.month == monthDate.month ==>
                    MonthLoopInvariant(existing, current, plan, providerId, slotCounter, newSlots, total)
        invariant current.month != monthDate.month ==> newSlots == total
        decreases if current.month == monthDate.month then DaysInMonth(current.year, current.month) + 1 - current.day else 0
      {
        var next := NextDay(current);
        var last := slotCounter;
        var daySlots := WalkOneDay(existing, current, t, providerId);
        MonthLoopStep(existing, current, plan, providerId, last, newSlots, total, daySlots, slotCounter, next);
        newSlots := newSlots + daySlots;
        current := next;
      }
    }

    /** One day of the walk: the day's slots when the template lists its weekday, none otherwise. */
    method WalkOneDay(existing: seq<Slot>, d: Date, t: Template, providerId: int) returns (daySlots: seq<Slot>)
      requires ValidDate(d) && GenerationTerminates(t) && existing == slots
      modifies this`slotCounter
      ensures daySlots == WalkDay(existing, d, PlanOf(t), providerId, old(slotCounter) + 1)
      ensures slotCounter == old(slotCounter) + |daySlots|
    {
      if Weekday(d) in t.weekdays {
        WalkDayIsDaySlots(slots, d, t, providerId, slotCounter + 1);
        daySlots := GenerateTimeSlots(d, t, providerId);
      } else {
        WalkDayUnlisted(slots, d, t, providerId, slotCounter + 1);
        daySlots := [];
      }
    }

    /** The clear and the walk of `generate_monthly_slots`, with the new slots appended. */
    method Regenerate(providerId: int, monthDate: Date, t: Template)
      requires ValidDate(monthDate) && GenerationTerminates(t) && StoreInvariant(slots, slotCounter)
      modifies this`slots, this`slotCounter
      ensures StoreInvariant(slots, slotCounter)
      ensures slots == Regenerated(old(slots), providerId, monthDate, t, old(slotCounter) + 1)
      ensures slotCounter == old(slotCounter) + |AddedSlots(old(slots), providerId, monthDate, t, old(slotCounter) + 1)|
    {
      ghost var before := slots;
      ghost var firstId := slotCounter + 1;
      var kept := KeepOthers(slots, providerId, MonthOf(monthDate));
      slots := kept;
      var newSlots := WalkMonth(providerId, monthDate, t);
      RegenerationKeepsInvariant(before, firstId - 1, providerId, monthDate, t, kept, newSlots, slotCounter);
      slots := kept + newSlots;
    }

    /**
     * `generate_monthly_slots`: refuse a month beyond the horizon and change nothing; otherwise drop
     * the provider's slots of the month, walk the month from `monthDate` day by day generating the
     * listed weekdays, append what was generated and record the template.
     */
    method GenerateMonthlySlots(providerId: int, monthDate: Date, t: Template, today: Date) returns (outcome: Generation)
      requires Valid() && ValidDate(monthDate) && ValidDate(today)
      requires ValidateMonthLimit(monthDate, today) ==> GenerationTerminates(t)
      modifies this`slots, this`slotCounter, this`availabilityConfigs
      ensures Valid()
      ensures !ValidateMonthLimit(monthDate, today) ==>
                outcome == BeyondHorizon && unchanged(this)
      ensures ValidateMonthLimit(monthDate, today) ==>
                && outcome == Generated
                && slots == Regenerated(old(slots), providerId, monthDate, t, old(slotCounter) + 1)
                && slotCounter == old(slotCounter) + |AddedSlots(old(slots), providerId, monthDate, t, old(slotCounter) + 1)|
                && availabilityConfigs == RecordTemplate(old(availabilityConfigs), providerId, MonthOf(monthDate), t)
    {
      if !ValidateMonthLimit(monthDate, today) {
        return BeyondHorizon;
      }
      Regenerate(providerId, monthDate, t);
      UpdateAvailabilityTemplate(providerId, MonthOf(monthDate), t);
      return Generated;
    }

    /** `change_month`: move `31 * delta` days and take the first of that month. */
    method ChangeMonth(delta: int)
      requires Valid()
      modifies this`selectedMonth
      ensures Valid()
      ensures selectedMonth == FirstOfMonth(AddDays(old(selectedMonth), 31 * delta))
    {
      selectedMonth := FirstOfMonth(AddDays(selectedMonth, 31 * delta));
    }

    /** `toggle_template_weekday` */
    method ToggleTemplateWeekday(day: int)
      requires Valid()
      modifies this`availabilityTemplate
      ensures Valid()
      ensures availabilityTemplate == old(availabilityTemplate).(weekdays := ToggleWeekday(old(availabilityTemplate.weekdays), day))
    {
      ToggleStrictlyIncreasing(availabilityTemplate.weekdays, day);
      availabilityTemplate := availabilityTemplate.(weekdays := ToggleWeekday(availabilityTemplate.weekdays, day));
    }

    /** `generate_slots_from_template`: regenerate the shown month for the selected provider with the edited template. */
    method GenerateSlotsFromTemplate(today: Date) returns (outcome: Generation)
      requires Valid() && ValidDate(today)
      modifies this`slots, this`slotCounter, this`availabilityConfigs
      ensures Valid()
      ensures !ValidateMonthLimit(selectedMonth, today) ==> outcome == BeyondHorizon && unchanged(this)
      ensures ValidateMonthLimit(selectedMonth, today) ==>
                && outcome == Generated
                && slots == Regenerated(old(slots), selectedProviderId, selectedMonth, availabilityTemplate, old(slotCounter) + 1)
                && slotCounter == old(slotCounter) + |AddedSlots(old(slots), selectedProviderId, selectedMonth, availabilityTemplate, old(slotCounter) + 1)|
                && availabilityConfigs == RecordTemplate(old(availabilityConfigs), selectedProviderId, MonthOf(selectedMonth), availabilityTemplate)
    {
      outcome := GenerateMonthlySlots(selectedProviderId, selectedMonth, availabilityTemplate, today);
    }

    /** `set_selected_provider_id`: an id that `int` refuses is logged and the selection kept. */
    method SetSelectedProviderId(text: string)
      requires Valid()
      modifies this`selectedProviderId
      ensures Valid()
      ensures ParseInt(text).Some? ==> selectedProviderId == ParseInt(text).value
      ensures ParseInt(text).None? ==> selectedProviderId == old(selectedProviderId)
    {
      var parsed := ParseInt(text);
      if parsed.Some? {
        selectedProviderId := parsed.value;
      }
    }

    /** `select_slot`: a slot opens its details; `None`, the UI's `{}`, closes them. */
    method SelectSlot(s: Option<Slot>)
      requires Valid()
      modifies this`selectedSlot
      ensures Valid() && selectedSlot == s
    {
      selectedSlot := s;
    }

    /** `calendar_grid`: 42 cells from the Sunday on or before the first of the shown month. */
    method CalendarGrid() returns (grid: seq<CalendarDay>)
      requires Valid()
      ensures grid == Grid(slots, selectedProviderId, selectedMonth)
    {
      var store := slots;
      var providerId := selectedProviderId;
      var selected := selectedMonth;
      var first := FirstOfMonth(selected);
      var current := AddDays(first, -LeadingDays(first));
      grid := [];
      for i := 0 to GridDays
        invariant GridPrefix(grid, store, providerId, selected, i)
        invariant current == GridDate(selected, i)
      {
        var daySlots := SlotsOn(store, providerId, current);
        var cell := CalendarDay(current, current.month == selected.month, SortByStart(daySlots));
        var next := NextDay(current);
        GridPrefixStep(grid, store, providerId, selected, i, current, cell, next);
        grid := grid + [cell];
        current := next;
      }
      GridPrefixDone(grid, store, providerId, selected);
    }

    /** `template_weekdays`: a row per day, Monday first, ticked when the edited template lists it. */
    function TemplateWeekdays(): (rows: seq<WeekdayRow>)
      reads this
      ensures |rows| == 7
      ensures forall i :: 0 <= i < 7 ==> rows[i].index == i && (rows[i].selected <==> i in availabilityTemplate.weekdays)
    {
      WeekdayRows(availabilityTemplate.weekdays)
    }
  }

  /** `change_month(1)` from the first of a month shows the first of the next month. */
  lemma ChangeMonthForward(selected: Date)
    requires ValidDate(selected) && selected.day == 1
    ensures FirstOfMonth(AddDays(selected, 31 * 1)) == FirstDay(NextMonth(MonthOf(selected)))
  {
    ThirtyOneDaysFromFirst(MonthOf(selected));
  }

  /**
   * `change_month(-1)` from the first of a month reaches the previous month only when that month
   * has 31 days; after a shorter month it lands two months back.
   */
  lemma ChangeMonthBackward(selected: Date)
    requires ValidDate(selected) && selected.day == 1
    ensures var pm := PrevMonth(MonthOf(selected));
            var r := FirstOfMonth(AddDays(selected, 31 * -1));
            && (MonthDays(pm) == 31 ==> r == FirstDay(pm))
            && (MonthDays(pm) < 31 ==> r == FirstDay(PrevMonth(pm)))
  {
    var m := MonthOf(selected);
    var pm := PrevMonth(m);
    var ppm := PrevMonth(pm);
    var e := AddDays(selected, -31);
    MonthIndexInjective(NextMonth(pm), m);
    MonthIndexInjective(NextMonth(ppm), pm);
    OrdinalNextMonth(pm);
    OrdinalNextMonth(ppm);
    OrdinalAddDays(selected, -31);
    assert selected == FirstDay(m);
    if MonthDays(pm) == 31 {
      DayInMonthByOrdinal(pm, e, 0);
    } else {
      DayInMonthByOrdinal(ppm, e, MonthDays(ppm) - 31 + MonthDays(pm));
    }
  }
}

/**
 * The slot engine of `CalendarState` as functions of values: the horizon check, the
 * duplicate check, the per-day slot generator, the month walk, the scoped clear and the
 * template store update. The class in calendar_state.dfy runs the source's loops and is
 * proved to compute exactly these functions; the lemmas here state what they guarantee.
 */
module SlotEngine {
  import opened Wrappers
  import opened Dates
  import opened Parsing

  /** A `datetime` on the minute: a date and the minutes since midnight. */
  datatype DateTime = DateTime(date: Date, minutes: int)

  datatype Slot = Slot(
    id: int,
    providerId: int,
    start: DateTime,
    end: DateTime,
    priceCents: int,
    isBooked: bool,
    calendarMonth: Month)

  datatype Template = Template(weekdays: seq<int>, startTime: string, endTime: string, slotDuration: int)

  const SlotPriceCents := 5000
  /** `timedelta(days=31 * 6)` */
  const HorizonDays := 31 * 6

  /** The template the state starts with: Monday to Friday, 09:00 to 17:00, 30-minute slots. */
  const DefaultTemplate := Template([0, 1, 2, 3, 4], "09:00", "17:00", 30)

  /**
   * Chronological order of two date-times. The source compares ISO 8601 strings, whose
   * fixed-width fields make string order this order for years 1 to 9999.
   */
  predicate DateTimeBefore(a: DateTime, b: DateTime)
  {
    DateBefore(a.date, b.date) || (a.date == b.date && a.minutes < b.minutes)
  }

  // ---------------------------------------------------------------------------
  // Horizon

  /** `_validate_month_limit`, on dates: strictly before the first of the month `186` days after this month's first. */
  function ValidateMonthLimit(monthDate: Date, today: Date): bool
    requires ValidDate(monthDate) && ValidDate(today)
  {
    DateBefore(monthDate, FirstOfMonth(AddDays(FirstOfMonth(today), HorizonDays)))
  }

  /** The horizon admits exactly the months before the sixth month after the current one. */
  lemma ValidateMonthLimitExact(monthDate: Date, today: Date)
    requires ValidDate(monthDate) && ValidDate(today)
    ensures ValidateMonthLimit(monthDate, today)
            <==> MonthIndex(MonthOf(monthDate)) < MonthIndex(MonthOf(today)) + 6
  {
    SixMonthsOfDays(MonthOf(today));
    assert FirstOfMonth(today) == FirstDay(MonthOf(today));
    var limit := FirstOfMonth(AddDays(FirstOfMonth(today), HorizonDays));
    assert MonthIndex(MonthOf(limit)) == MonthIndex(MonthOf(today)) + 6;
  }

  /** With today 2024-01-15, June 2024 is the last month that can be generated. */
  lemma ValidateMonthLimitExample()
    ensures ValidateMonthLimit(Date(2024, 6, 1), Date(2024, 1, 15))
    ensures ValidateMonthLimit(Date(2024, 6, 30), Date(2024, 1, 15))
    ensures !ValidateMonthLimit(Date(2024, 7, 1), Date(2024, 1, 15))
    ensures !ValidateMonthLimit(Date(2024, 8, 1), Date(2024, 1, 15))
  {
    ValidateMonthLimitExact(Date(2024, 6, 1), Date(2024, 1, 15));
    ValidateMonthLimitExact(Date(2024, 6, 30), Date(2024, 1, 15));
    ValidateMonthLimitExact(Date(2024, 7, 1), Date(2024, 1, 15));
    ValidateMonthLimitExact(Date(2024, 8, 1), Date(2024, 1, 15));
  }

  // ---------------------------------------------------------------------------
  // The slot collection

  /** `_slot_exists`: some slot of this provider starts at this moment. */
  function SlotExists(slots: seq<Slot>, providerId: int, start: DateTime): (r: bool)
    ensures r <==> exists i :: 0 <= i < |slots| && slots[i].providerId == providerId && slots[i].start == start
  {
    if slots == [] then false
    else
      (slots[0].providerId == providerId && slots[0].start == start)
      || SlotExists(slots[1..], providerId, start)
  }

  /** Ids grow along the collection; with it no slot appears twice. */
  predicate IdsIncreasing(slots: seq<Slot>)
  {
    forall i, j :: 0 <= i < j < |slots| ==> slots[i].id < slots[j].id
  }

  /** No provider has two slots starting at the same moment: the deduplication key is unique. */
  predicate NoDuplicateStarts(slots: seq<Slot>)
  {
    forall i, j :: 0 <= i < j < |slots| && slots[i].providerId == slots[j].providerId ==> slots[i].start != slots[j].start
  }

  /** What the engine keeps true of its state: ids increasing and handed out by the counter, keys unique. */
  predicate StoreInvariant(slots: seq<Slot>, slotCounter: int)
  {
    && 0 <= slotCounter
    && IdsIncreasing(slots)
    && (forall i :: 0 <= i < |slots| ==> 1 <= slots[i].id <= slotCounter)
    && NoDuplicateStarts(slots)
  }

  /** The slots one regeneration replaces: those of the provider labelled with the month. */
  predicate InScope(s: Slot, providerId: int, month: Month)
  {
    s.providerId == providerId && s.calendarMonth == month
  }

  /** The comprehension that clears a provider's month, booked slots included. */
  function KeepOthers(slots: seq<Slot>, providerId: int, month: Month): (r: seq<Slot>)
    ensures |r| <= |slots|
  {
    if slots == [] then []
    else
      var rest := KeepOthers(slots[1..], providerId, month);
      if InScope(slots[0], providerId, month) then rest else [slots[0]] + rest
  }

  /** The clear keeps exactly the slots outside the provider's month. */
  lemma {:induction false} KeepOthersMembers(slots: seq<Slot>, providerId: int, month: Month)
    ensures forall s :: s in KeepOthers(slots, providerId, month) <==> s in slots && !InScope(s, providerId, month)
  {
    if slots != [] {
      KeepOthersMembers(slots[1..], providerId, month);
      assert slots == [slots[0]] + slots[1..];
    }
  }

  /** A collection with nothing of the provider's month is kept whole. */
  lemma {:induction false} KeepOthersUnscoped(slots: seq<Slot>, providerId: int, month: Month)
    requires forall i :: 0 <= i < |slots| ==> !InScope(slots[i], providerId, month)
    ensures KeepOthers(slots, providerId, month) == slots
  {
    if slots != [] {
      KeepOthersUnscoped(slots[1..], providerId, month);
      assert slots == [slots[0]] + slots[1..];
    }
  }

  /** The clear keeps the order of what it keeps, so ids still grow along the collection. */
  lemma {:induction false} KeepOthersIdsIncreasing(slots: seq<Slot>, providerId: int, month: Month)
    requires IdsIncreasing(slots)
    ensures IdsIncreasing(KeepOthers(slots, providerId, month))
  {
    if slots != [] {
      var rest := KeepOthers(slots[1..], providerId, month);
      KeepOthersIdsIncreasing(slots[1..], providerId, month);
      KeepOthersMembers(slots[1..], providerId, month);
      forall k | 0 <= k < |rest| ensures slots[0].id < rest[k].id {
        assert rest[k] in slots[1..];
        var j :| 0 <= j < |slots[1..]| && slots[1..][j] == rest[k];
        assert slots[1 + j] == rest[k];
      }
    }
  }

  /** The clear keeps the deduplication key unique. */
  lemma {:induction false} KeepOthersNoDuplicateStarts(slots: seq<Slot>, providerId: int, month: Month)
    requires NoDuplicateStarts(slots)
    ensures NoDuplicateStarts(KeepOthers(slots, providerId, month))
  {
    if slots != [] {
      var rest := KeepOthers(slots[1..], providerId, month);
      KeepOthersNoDuplicateStarts(slots[1..], providerId, month);
      KeepOthersMembers(slots[1..], providerId, month);
      forall k | 0 <= k < |rest| && slots[0].providerId == rest[k].providerId ensures slots[0].start != rest[k].start {
        assert rest[k] in slots[1..];
        var j :| 0 <= j < |slots[1..]| && slots[1..][j] == rest[k];
        assert slots[1 + j] == rest[k];
      }
    }
  }

  lemma {:induction false} KeepOthersAppend(a: seq<Slot>, b: seq<Slot>, providerId: int, month: Month)
    ensures KeepOthers(a + b, providerId, month) == KeepOthers(a, providerId, month) + KeepOthers(b, providerId, month)
  {
    if a != [] {
      assert (a + b)[1..] == a[1..] + b;
      KeepOthersAppend(a[1..], b, providerId, month);
    } else {
      assert a + b == b;
    }
  }

  // ---------------------------------------------------------------------------
  // One day: `_generate_time_slots`

  /** The source loops on a day only while it makes progress or does not enter the loop at all. */
  predicate DayLoopTerminates(t: Template)
  {
    match (ParseClock(t.startTime), ParseClock(t.endTime))
    case (Some(s), Some(e)) => t.slotDuration > 0 || s + t.slotDuration > e
    case _ => true
  }

  /** The month walk calls the day loop only for a weekday (0 to 6) listed in the template. */
  predicate GenerationTerminates(t: Template)
  {
    DayLoopTerminates(t) || forall i :: 0 <= i < |t.weekdays| ==> !(0 <= t.weekdays[i] < 7)
  }

  /** The cursor of the day loop: `first`, then steps of `duration` while a whole slot still fits before `end`. */
  function CandidateStarts(first: int, end: int, duration: int): (r: seq<int>)
    requires duration > 0 || first + duration > end
    ensures r == [] <==> first + duration > end
    ensures r != [] ==> r[0] == first
    ensures r != [] ==> end < r[|r| - 1] + 2 * duration
    decreases end - first
  {
    if first + duration <= end then [first] + CandidateStarts(first + duration, end, duration) else []
  }

  /** Every start leaves room for a whole slot of `duration` inside the window from `first` to `end`. */
  predicate StartsWithin(r: seq<int>, first: int, end: int, duration: int)
  {
    forall i :: 0 <= i < |r| ==> first <= r[i] && r[i] + duration <= end
  }

  predicate IntsIncreasing(r: seq<int>)
  {
    forall i, j :: 0 <= i < j < |r| ==> r[i] < r[j]
  }

  /** The candidates lie in the window and strictly increase. */
  lemma {:induction false} CandidateStartsBounds(first: int, end: int, duration: int)
    requires duration > 0 || first + duration > end
    ensures StartsWithin(CandidateStarts(first, end, duration), first, end, duration)
    ensures IntsIncreasing(CandidateStarts(first, end, duration))
    decreases end - first
  {
    if first + duration <= end {
      var next := first + duration;
      var r := CandidateStarts(first, end, duration);
      var rest := CandidateStarts(next, end, duration);
      CandidateStartsBounds(next, end, duration);
      assert r == [first] + rest;
      forall i | 0 < i < |r| ensures next <= r[i] && r[i] + duration <= end {
        assert r[i] == rest[i - 1];
      }
      forall i, j | 0 <= i < j < |r| ensures r[i] < r[j] {
        assert r[j] == rest[j - 1];
        if i > 0 {
          assert r[i] == rest[i - 1];
        }
      }
    }
  }

  /** The candidate start minutes a template yields for a day; none when a time does not parse. */
  function TemplateStarts(t: Template): (r: seq<int>)
    requires DayLoopTerminates(t)
    ensures ParseClock(t.startTime).None? || ParseClock(t.endTime).None? ==> r == []
    ensures r != [] ==> ParseClock(t.startTime).Some? && ParseClock(t.endTime).Some? && t.slotDuration > 0
  {
    match (ParseClock(t.startTime), ParseClock(t.endTime))
    case (Some(s), Some(e)) => CandidateStarts(s, e, t.slotDuration)
    case _ => []
  }

  /** A template's starts lie between its parsed start and end times, a whole slot before the end, in increasing order. */
  lemma TemplateStartsBounds(t: Template)
    requires DayLoopTerminates(t)
    ensures TemplateStarts(t) != [] ==>
              && ParseClock(t.startTime).Some? && ParseClock(t.endTime).Some?
              && StartsWithin(TemplateStarts(t), ParseClock(t.startTime).value, ParseClock(t.endTime).value, t.slotDuration)
    ensures IntsIncreasing(TemplateStarts(t))
  {
    match (ParseClock(t.startTime), ParseClock(t.endTime))
    case (Some(s), Some(e)) =>
      assert TemplateStarts(t) == CandidateStarts(s, e, t.slotDuration);
      CandidateStartsBounds(s, e, t.slotDuration);
    case _ =>
  }

  /** One step of the cursor: a slot fits at `first`, so it is the first candidate and the rest follow it. */
  lemma CandidateStartsStep(first: int, end: int, duration: int, next: int)
    requires duration > 0 && first + duration <= end && next == first + duration
    ensures CandidateStarts(first, end, duration) == [first] + CandidateStarts(next, end, duration)
  {
  }

  /** Every candidate lies on the step grid: the i-th one is i durations after the first. */
  lemma {:induction false} CandidateStartsAt(first: int, end: int, duration: int, i: int)
    requires duration > 0 || first + duration > end
    requires 0 <= i < |CandidateStarts(first, end, duration)|
    ensures CandidateStarts(first, end, duration)[i] == first + i * duration
    decreases i
  {
    if i > 0 {
      var next := first + duration;
      CandidateStartsStep(first, end, duration, next);
      CandidateStartsAt(next, end, duration, i - 1);
      StepMultiple(i, duration);
    }
  }

  lemma StepMultiple(i: int, duration: int)
    ensures duration + (i - 1) * duration == i * duration
  {
  }

  /** A template whose times parse yields the candidates of that window. */
  lemma TemplateStartsOfWindow(t: Template, first: int, end: int)
    requires ParseClock(t.startTime) == Some(first) && ParseClock(t.endTime) == Some(end) && t.slotDuration > 0
    ensures DayLoopTerminates(t) && TemplateStarts(t) == CandidateStarts(first, end, t.slotDuration)
  {
  }

  /** With both times parsed, the day generator emits over the candidates of that window. */
  lemma DaySlotsOfWindow(existing: seq<Slot>, d: Date, t: Template, providerId: int, nextId: int, first: int, end: int)
    requires ParseClock(t.startTime) == Some(first) && ParseClock(t.endTime) == Some(end) && DayLoopTerminates(t)
    ensures t.slotDuration > 0 || first + t.slotDuration > end
    ensures DaySlots(existing, d, t, providerId, nextId) == Emit(existing, d, CandidateStarts(first, end, t.slotDuration), t.slotDuration, providerId, nextId)
  {
  }

  /** The default template's times parse to 09:00 and 17:00. */
  lemma DefaultTemplateWindow()
    ensures DayLoopTerminates(DefaultTemplate)
    ensures TemplateStarts(DefaultTemplate) == CandidateStarts(9 * 60, 17 * 60, 30)
  {
    ParseClockAcceptsExamples();
    TemplateStartsOfWindow(DefaultTemplate, 9 * 60, 17 * 60);
  }

  /** A day fits exactly `n` whole slots when `n` of them end by `end` and `n + 1` would not. */
  lemma {:induction false} CandidateStartsCount(first: int, end: int, duration: int, n: nat)
    requires duration > 0 && first + n * duration <= end < first + (n + 1) * duration
    ensures |CandidateStarts(first, end, duration)| == n
    decreases n
  {
    if n > 0 {
      assert first + duration + (n - 1) * duration == first + n * duration;
      assert (n - 1) * duration >= 0;
      CandidateStartsCount(first + duration, end, duration, n - 1);
    }
  }

  /** From 09:00 to 17:00 in steps of 30 minutes there are 16 starts, 09:00 to 16:30. */
  lemma HalfHoursNineToFive(first: int, end: int)
    requires first == 9 * 60 && end == 17 * 60
    ensures var r := CandidateStarts(first, end, 30);
            |r| == 16 && r[0] == 9 * 60 && r[15] == 16 * 60 + 30
  {
    CandidateStartsCount(first, end, 30, 16);
    CandidateStartsAt(first, end, 30, 15);
  }

  /** The default 09:00 to 17:00 template fits exactly 16 half-hour slots, 09:00 to 16:30. */
  lemma DefaultTemplateStarts()
    ensures var r := TemplateStarts(DefaultTemplate);
            |r| == 16 && r[0] == 9 * 60 && r[15] == 16 * 60 + 30
  {
    DefaultTemplateWindow();
    HalfHoursNineToFive(9 * 60, 17 * 60);
  }

  /** 09:50 parses to 590 minutes. */
  lemma TenToTen()
    ensures ParseClock("09:50") == Some(590)
  {
    assert "09:50"[..2] == "09" && "09:50"[3..] == "50";
    assert DecimalValue("09") == 9 by { assert "09"[..1] == "0"; }
    assert DecimalValue("50") == 50 by { assert "50"[..1] == "5"; }
  }

  /** 09:00 to 09:50 with 30 minutes fits one slot only: a partial slot is never emitted. */
  lemma ShortWindowStarts()
    ensures TemplateStarts(Template([0], "09:00", "09:50", 30)) == [9 * 60]
  {
    ParseClockAcceptsExamples();
    TenToTen();
    TemplateStartsOfWindow(Template([0], "09:00", "09:50", 30), 540, 590);
    OneSlotWindow(540, 590, 30);
  }

  lemma OneSlotWindow(first: int, end: int, duration: int)
    requires duration > 0 && first + duration <= end < first + 2 * duration
    ensures CandidateStarts(first, end, duration) == [first]
  {
    CandidateStartsCount(first, end, duration, 1);
  }

  /** A slot as `_generate_time_slots` writes it: for this provider, one duration long, unbooked, labelled with its month. */
  predicate FreshSlot(s: Slot, providerId: int, duration: int)
  {
    && s.providerId == providerId
    && s.end == DateTime(s.start.date, s.start.minutes + duration)
    && s.priceCents == SlotPriceCents
    && !s.isBooked
    && s.calendarMonth == MonthOf(s.start.date)
  }

  function NewSlot(id: int, providerId: int, d: Date, minutes: int, duration: int): (s: Slot)
    ensures FreshSlot(s, providerId, duration) && s.id == id && s.start == DateTime(d, minutes)
  {
    Slot(id, providerId, DateTime(d, minutes), DateTime(d, minutes + duration), SlotPriceCents, false, MonthOf(d))
  }

  /** The loop body over the candidate starts: skip a taken start, otherwise emit the next id. */
  function Emit(existing: seq<Slot>, d: Date, starts: seq<int>, duration: int, providerId: int, nextId: int): (r: seq<Slot>)
    ensures |r| <= |starts|
  {
    if starts == [] then []
    else
      var here := DateTime(d, starts[0]);
      if SlotExists(existing, providerId, here) then
        Emit(existing, d, starts[1..], duration, providerId, nextId)
      else
        [NewSlot(nextId, providerId, d, starts[0], duration)] + Emit(existing, d, starts[1..], duration, providerId, nextId + 1)
  }

  /** One step of the emission: a taken start is skipped, a free one takes the next id. */
  lemma EmitStep(existing: seq<Slot>, d: Date, x: int, rest: seq<int>, duration: int, providerId: int, nextId: int)
    ensures Emit(existing, d, [x] + rest, duration, providerId, nextId)
            == if SlotExists(existing, providerId, DateTime(d, x)) then Emit(existing, d, rest, duration, providerId, nextId)
               else [NewSlot(nextId, providerId, d, x, duration)] + Emit(existing, d, rest, duration, providerId, nextId + 1)
  {
    assert ([x] + rest)[1..] == rest;
  }

  lemma AppendAssoc(a: seq<Slot>, b: seq<Slot>, c: seq<Slot>)
    ensures (a + b) + c == a + (b + c)
  {
  }

  /**
   * The day loop's invariant: the slots emitted so far, followed by the emission over the
   * candidates still ahead of the cursor with ids after `lastId`, are the day's emission.
   */
  predicate DayLoopInvariant(existing: seq<Slot>, d: Date, current: int, end: int, duration: int, providerId: int,
                             lastId: int, generated: seq<Slot>, target: seq<Slot>)
    requires duration > 0 || current + duration > end
  {
    generated + Emit(existing, d, CandidateStarts(current, end, duration), duration, providerId, lastId + 1) == target
  }

  /** A turn of the day loop at a start the provider holds skips it; `next` is the cursor's next value. */
  lemma DayLoopSkip(existing: seq<Slot>, d: Date, current: int, end: int, duration: int, providerId: int, lastId: int,
                    generated: seq<Slot>, target: seq<Slot>, next: int)
    requires duration > 0 && current + duration <= end && next == current + duration
    requires SlotExists(existing, providerId, DateTime(d, current))
    requires DayLoopInvariant(existing, d, current, end, duration, providerId, lastId, generated, target)
    ensures DayLoopInvariant(existing, d, next, end, duration, providerId, lastId, generated, target)
  {
    CandidateStartsStep(current, end, duration, next);
    EmitStep(existing, d, current, CandidateStarts(next, end, duration), duration, providerId, lastId + 1);
  }

  /** A turn of the day loop at a free start emits a slot there with the next id, `id`. */
  lemma DayLoopEmit(existing: seq<Slot>, d: Date, current: int, end: int, duration: int, providerId: int, lastId: int,
                    generated: seq<Slot>, target: seq<Slot>, next: int, id: int)
    requires duration > 0 && current + duration <= end && next == current + duration && id == lastId + 1
    requires !SlotExists(existing, providerId, DateTime(d, current))
    requires DayLoopInvariant(existing, d, current, end, duration, providerId, lastId, generated, target)
    ensures DayLoopInvariant(existing, d, next, end, duration, providerId, id,
                             generated + [NewSlot(id, providerId, d, current, duration)], target)
  {
    var rest := CandidateStarts(next, end, duration);
    CandidateStartsStep(current, end, duration, next);
    EmitStep(existing, d, current, rest, duration, providerId, id);
    AppendAssoc(generated, [NewSlot(id, providerId, d, current, duration)], Emit(existing, d, rest, duration, providerId, id + 1));
  }

  /** When the cursor leaves the window nothing remains to emit. */
  lemma DayLoopDone(existing: seq<Slot>, d: Date, current: int, end: int, duration: int, providerId: int, lastId: int,
                    generated: seq<Slot>, target: seq<Slot>)
    requires current + duration > end
    requires DayLoopInvariant(existing, d, current, end, duration, providerId, lastId, generated, target)
    ensures generated == target
  {
    assert generated + [] == generated;
  }

  /**
   * Each emitted slot is a fresh slot of the provider on the day, with the next id in turn, at
   * one of the candidate starts, and at a start the provider did not hold.
   */
  lemma {:induction false} EmitFields(existing: seq<Slot>, d: Date, starts: seq<int>, duration: int, providerId: int, nextId: int, i: int)
    requires 0 <= i < |Emit(existing, d, starts, duration, providerId, nextId)|
    ensures var s := Emit(existing, d, starts, duration, providerId, nextId)[i];
            && FreshSlot(s, providerId, duration) && s.start.date == d && s.id == nextId + i
            && s.start.minutes in starts && !SlotExists(existing, providerId, s.start)
  {
    var skip := SlotExists(existing, providerId, DateTime(d, starts[0]));
    var id' := if skip then nextId else nextId + 1;
    var rest := Emit(existing, d, starts[1..], duration, providerId, id');
    if skip {
      EmitFields(existing, d, starts[1..], duration, providerId, id', i);
      assert rest[i].start.minutes in starts[1..];
    } else if i > 0 {
      EmitFields(existing, d, starts[1..], duration, providerId, id', i - 1);
      assert rest[i - 1].start.minutes in starts[1..];
    }
  }

  /** Every candidate start that no slot of the provider holds yet is emitted. */
  lemma {:induction false} EmitComplete(existing: seq<Slot>, d: Date, starts: seq<int>, duration: int, providerId: int, nextId: int, j: int)
    requires 0 <= j < |starts| && !SlotExists(existing, providerId, DateTime(d, starts[j]))
    ensures exists i :: 0 <= i < |Emit(existing, d, starts, duration, providerId, nextId)|
                        && Emit(existing, d, starts, duration, providerId, nextId)[i].start.minutes == starts[j]
  {
    var r := Emit(existing, d, starts, duration, providerId, nextId);
    if j == 0 {
      assert r[0].start.minutes == starts[0];
    } else {
      var skip := SlotExists(existing, providerId, DateTime(d, starts[0]));
      var id' := if skip then nextId else nextId + 1;
      var rest := Emit(existing, d, starts[1..], duration, providerId, id');
      EmitComplete(existing, d, starts[1..], duration, providerId, id', j - 1);
      var i :| 0 <= i < |rest| && rest[i].start.minutes == starts[j];
      if skip {
        assert r[i] == rest[i];
      } else {
        assert r[i + 1] == rest[i];
      }
    }
  }

  /** Start minutes grow strictly along a list of slots. */
  predicate MinutesIncreasing(r: seq<Slot>)
  {
    forall i, j :: 0 <= i < j < |r| ==> r[i].start.minutes < r[j].start.minutes
  }

  /** Emitted starts keep the order of the candidate starts. */
  lemma {:induction false} EmitIncreasing(existing: seq<Slot>, d: Date, starts: seq<int>, duration: int, providerId: int, nextId: int)
    requires forall i, j :: 0 <= i < j < |starts| ==> starts[i] < starts[j]
    ensures MinutesIncreasing(Emit(existing, d, starts, duration, providerId, nextId))
  {
    if starts != [] {
      var skip := SlotExists(existing, providerId, DateTime(d, starts[0]));
      var id' := if skip then nextId else nextId + 1;
      var rest := Emit(existing, d, starts[1..], duration, providerId, id');
      EmitIncreasing(existing, d, starts[1..], duration, providerId, id');
      var r := Emit(existing, d, starts, duration, providerId, nextId);
      if !skip {
        assert r == [NewSlot(nextId, providerId, d, starts[0], duration)] + rest;
        forall k | 0 <= k < |rest| ensures starts[0] < rest[k].start.minutes {
          EmitFields(existing, d, starts[1..], duration, providerId, id', k);
          var j :| 0 <= j < |starts[1..]| && starts[1..][j] == rest[k].start.minutes;
          assert starts[1 + j] == rest[k].start.minutes;
        }
        forall i, j | 0 <= i < j < |r| ensures r[i].start.minutes < r[j].start.minutes {
          assert r[j] == rest[j - 1];
          if i > 0 {
            assert r[i] == rest[i - 1];
          }
        }
      }
    }
  }

  /** `_generate_time_slots` for one day, given the slots the duplicate check scans. */
  function DaySlots(existing: seq<Slot>, d: Date, t: Template, providerId: int, nextId: int): (r: seq<Slot>)
    requires DayLoopTerminates(t)
    ensures |r| <= |TemplateStarts(t)|
  {
    Emit(existing, d, TemplateStarts(t), t.slotDuration, providerId, nextId)
  }

  /** A malformed start or end time yields no slots for the day. */
  lemma DaySlotsMalformed(existing: seq<Slot>, d: Date, t: Template, providerId: int, nextId: int)
    requires DayLoopTerminates(t)
    requires ParseClock(t.startTime).None? || ParseClock(t.endTime).None?
    ensures DaySlots(existing, d, t, providerId, nextId) == []
  {
  }

  /** Each slot of the day is fresh, dated that day, numbered in turn and at a free start the template yields. */
  lemma DaySlotsFields(existing: seq<Slot>, d: Date, t: Template, providerId: int, nextId: int, i: int)
    requires DayLoopTerminates(t)
    requires 0 <= i < |DaySlots(existing, d, t, providerId, nextId)|
    ensures var s := DaySlots(existing, d, t, providerId, nextId)[i];
            && FreshSlot(s, providerId, t.slotDuration) && s.start.date == d && s.id == nextId + i
            && s.start.minutes in TemplateStarts(t)
            && !SlotExists(existing, providerId, s.start)
  {
    EmitFields(existing, d, TemplateStarts(t), t.slotDuration, providerId, nextId, i);
  }

  /** The day's slots come out in order of their start time. */
  lemma DaySlotsIncreasing(existing: seq<Slot>, d: Date, t: Template, providerId: int, nextId: int)
    requires DayLoopTerminates(t)
    ensures MinutesIncreasing(DaySlots(existing, d, t, providerId, nextId))
  {
    TemplateStartsBounds(t);
    EmitIncreasing(existing, d, TemplateStarts(t), t.slotDuration, providerId, nextId);
  }

  /** Every start the template yields for the day is emitted unless the provider already has a slot there. */
  lemma DaySlotsComplete(existing: seq<Slot>, d: Date, t: Template, providerId: int, nextId: int, m: int)
    requires DayLoopTerminates(t)
    requires m in TemplateStarts(t) && !SlotExists(existing, providerId, DateTime(d, m))
    ensures exists i :: 0 <= i < |DaySlots(existing, d, t, providerId, nextId)|
                        && DaySlots(existing, d, t, providerId, nextId)[i].start.minutes == m
  {
    var starts := TemplateStarts(t);
    var j :| 0 <= j < |starts| && starts[j] == m;
    EmitComplete(existing, d, starts, t.slotDuration, providerId, nextId, j);
    assert DaySlots(existing, d, t, providerId, nextId) == Emit(existing, d, starts, t.slotDuration, providerId, nextId);
  }

  /** Each emitted slot lies inside the template's window: it starts at or after the start and ends by the end. */
  lemma DaySlotsInWindow(existing: seq<Slot>, d: Date, t: Template, providerId: int, nextId: int, i: int)
    requires DayLoopTerminates(t)
    requires 0 <= i < |DaySlots(existing, d, t, providerId, nextId)|
    ensures var s := DaySlots(existing, d, t, providerId, nextId)[i];
            && ParseClock(t.startTime).Some? && ParseClock(t.endTime).Some? && t.slotDuration > 0
            && ParseClock(t.startTime).value <= s.start.minutes
            && s.end.minutes <= ParseClock(t.endTime).value
            && s.end.minutes == s.start.minutes + t.slotDuration
  {
    var r := DaySlots(existing, d, t, providerId, nextId);
    DaySlotsFields(existing, d, t, providerId, nextId, i);
    TemplateStartsBounds(t);
    var k :| 0 <= k < |TemplateStarts(t)| && TemplateStarts(t)[k] == r[i].start.minutes;
  }

  // ---------------------------------------------------------------------------
  // One month: the walk of `generate_monthly_slots`

  /** A weekday listed in the template is one of 0 to 6, so the day loop terminates for it. */
  lemma ListedDayTerminates(d: Date, t: Template)
    requires ValidDate(d) && GenerationTerminates(t) && Weekday(d) in t.weekdays
    ensures DayLoopTerminates(t)
  {
    var k :| 0 <= k < |t.weekdays| && t.weekdays[k] == Weekday(d);
  }

  /**
   * What the month walk uses of a template: the listed weekdays, the candidate starts of a day and
   * the slot length. The times are parsed the same way on every day, so every day sees the same starts.
   */
  datatype Plan = Plan(weekdays: seq<int>, starts: seq<int>, duration: int)

  /** Strictly increasing candidate starts. */
  predicate StartsIncreasing(p: Plan)
  {
    forall i, j :: 0 <= i < j < |p.starts| ==> p.starts[i] < p.starts[j]
  }

  /** The plan of a template; when no day loop would terminate no listed weekday exists, and no starts are needed. */
  function PlanOf(t: Template): (p: Plan)
    requires GenerationTerminates(t)
    ensures p.starts != [] ==> DayLoopTerminates(t)
  {
    Plan(t.weekdays, if DayLoopTerminates(t) then TemplateStarts(t) else [], t.slotDuration)
  }

  /** A template's plan lists its starts in increasing order. */
  lemma PlanOfIncreasing(t: Template)
    requires GenerationTerminates(t)
    ensures StartsIncreasing(PlanOf(t))
  {
    if DayLoopTerminates(t) {
      TemplateStartsBounds(t);
    }
  }

  /** The month walk's slots for one day: those of `_generate_time_slots` when the weekday is listed, none otherwise. */
  function WalkDay(existing: seq<Slot>, d: Date, plan: Plan, providerId: int, nextId: int): seq<Slot>
    requires ValidDate(d)
  {
    if Weekday(d) in plan.weekdays then Emit(existing, d, plan.starts, plan.duration, providerId, nextId) else []
  }

  /** On a listed weekday the walk runs exactly the source's day generator with the template. */
  lemma WalkDayIsDaySlots(existing: seq<Slot>, d: Date, t: Template, providerId: int, nextId: int)
    requires ValidDate(d) && GenerationTerminates(t) && Weekday(d) in t.weekdays
    ensures DayLoopTerminates(t)
    ensures WalkDay(existing, d, PlanOf(t), providerId, nextId) == DaySlots(existing, d, t, providerId, nextId)
  {
    ListedDayTerminates(d, t);
  }

  /** On a weekday the template does not list the walk creates nothing. */
  lemma WalkDayUnlisted(existing: seq<Slot>, d: Date, t: Template, providerId: int, nextId: int)
    requires ValidDate(d) && GenerationTerminates(t) && Weekday(d) !in t.weekdays
    ensures WalkDay(existing, d, PlanOf(t), providerId, nextId) == []
  {
  }

  lemma WalkDayFields(existing: seq<Slot>, d: Date, plan: Plan, providerId: int, nextId: int, i: int)
    requires ValidDate(d) && 0 <= i < |WalkDay(existing, d, plan, providerId, nextId)|
    ensures var s := WalkDay(existing, d, plan, providerId, nextId)[i];
            && FreshSlot(s, providerId, plan.duration) && s.start.date == d && s.id == nextId + i
            && Weekday(d) in plan.weekdays && s.start.minutes in plan.starts
            && !SlotExists(existing, providerId, s.start)
  {
    EmitFields(existing, d, plan.starts, plan.duration, providerId, nextId, i);
  }

  /** Inside a month the next day is the following day number of the same month. */
  lemma NextDayInMonth(d: Date)
    requires ValidDate(d)
    ensures NextDay(d).month == d.month <==> d.day < DaysInMonth(d.year, d.month)
    ensures d.day < DaysInMonth(d.year, d.month) ==> NextDay(d) == Date(d.year, d.month, d.day + 1)
  {
  }

  /** The day after `d` inside its month. */
  function Tomorrow(d: Date): (r: Date)
    requires ValidDate(d) && d.day < DaysInMonth(d.year, d.month)
    ensures ValidDate(r) && MonthOf(r) == MonthOf(d) && r.day == d.day + 1
  {
    Date(d.year, d.month, d.day + 1)
  }

  /**
   * The slots the month walk produces from day `d` to the end of its month: the day's slots when
   * its weekday is listed, then the following days with the ids that follow. The source steps a
   * day at a time while the month stays the same; `NextDayInMonth` shows that is this walk.
   */
  function MonthSlots(existing: seq<Slot>, d: Date, plan: Plan, providerId: int, nextId: int): seq<Slot>
    requires ValidDate(d)
    decreases DaysInMonth(d.year, d.month) - d.day
  {
    var today := WalkDay(existing, d, plan, providerId, nextId);
    if d.day < DaysInMonth(d.year, d.month) then
      today + MonthSlots(existing, Tomorrow(d), plan, providerId, nextId + |today|)
    else today
  }

  /** One step of the walk: the day's slots, then the rest of the month. */
  lemma MonthSlotsStep(existing: seq<Slot>, d: Date, plan: Plan, providerId: int, nextId: int)
    requires ValidDate(d) && d.day < DaysInMonth(d.year, d.month)
    ensures MonthSlots(existing, d, plan, providerId, nextId)
            == WalkDay(existing, d, plan, providerId, nextId)
               + MonthSlots(existing, Tomorrow(d), plan, providerId, nextId + |WalkDay(existing, d, plan, providerId, nextId)|)
  {
  }

  /** The last day of the month ends the walk. */
  lemma MonthSlotsLastDay(existing: seq<Slot>, d: Date, plan: Plan, providerId: int, nextId: int)
    requires ValidDate(d) && d.day == DaysInMonth(d.year, d.month)
    ensures MonthSlots(existing, d, plan, providerId, nextId) == WalkDay(existing, d, plan, providerId, nextId)
  {
  }

  /**
   * The month loop's invariant: the slots produced so far, followed by the walk over the rest of
   * the month from the cursor with ids after `lastId`, are the whole month's slots.
   */
  predicate MonthLoopInvariant(existing: seq<Slot>, current: Date, plan: Plan, providerId: int, lastId: int,
                               produced: seq<Slot>, total: seq<Slot>)
    requires ValidDate(current)
  {
    produced + MonthSlots(existing, current, plan, providerId, lastId + 1) == total
  }

  /**
   * One day of the month loop, whose slots `walked` take the ids after `lastId` up to `newLast`,
   * with `next` the following day: inside the month the invariant moves on to `next`; after the
   * month's last day the month's slots are complete.
   */
  lemma MonthLoopStep(existing: seq<Slot>, current: Date, plan: Plan, providerId: int, lastId: int,
                      produced: seq<Slot>, total: seq<Slot>, walked: seq<Slot>, newLast: int, next: Date)
    requires ValidDate(current) && next == NextDay(current)
    requires walked == WalkDay(existing, current, plan, providerId, lastId + 1) && newLast == lastId + |walked|
    requires MonthLoopInvariant(existing, current, plan, providerId, lastId, produced, total)
    ensures ValidDate(next)
    ensures next.month == current.month ==>
              MonthOf(next) == MonthOf(current) && MonthLoopInvariant(existing, next, plan, providerId, newLast, produced + walked, total)
    ensures next.month != current.month ==> produced + walked == total
  {
    NextDayInMonth(current);
    if current.day < DaysInMonth(current.year, current.month) {
      assert next == Tomorrow(current);
      MonthSlotsStep(existing, current, plan, providerId, lastId + 1);
      var rest := MonthSlots(existing, next, plan, providerId, newLast + 1);
      assert (produced + walked) + rest == produced + (walked + rest);
    } else {
      MonthSlotsLastDay(existing, current, plan, providerId, lastId + 1);
    }
  }

  /**
   * Every slot of the walk is a fresh slot of the provider with the next id in turn, on a day of
   * the walked month from `d` on whose weekday is listed, at a candidate start that the provider
   * did not hold.
   */
  lemma {:induction false} MonthSlotsFields(existing: seq<Slot>, d: Date, plan: Plan, providerId: int, nextId: int, i: int)
    requires ValidDate(d)
    requires 0 <= i < |MonthSlots(existing, d, plan, providerId, nextId)|
    ensures var s := MonthSlots(existing, d, plan, providerId, nextId)[i];
            && FreshSlot(s, providerId, plan.duration) && s.id == nextId + i
            && ValidDate(s.start.date)
            && MonthOf(s.start.date) == MonthOf(d) && d.day <= s.start.date.day
            && Weekday(s.start.date) in plan.weekdays
            && s.start.minutes in plan.starts
            && !SlotExists(existing, providerId, s.start)
    decreases DaysInMonth(d.year, d.month) - d.day
  {
    var today := WalkDay(existing, d, plan, providerId, nextId);
    if d.day < DaysInMonth(d.year, d.month) {
      MonthSlotsStep(existing, d, plan, providerId, nextId);
      var rest := MonthSlots(existing, Tomorrow(d), plan, providerId, nextId + |today|);
      if i < |today| {
        WalkDayFields(existing, d, plan, providerId, nextId, i);
        assert (today + rest)[i] == today[i];
      } else {
        MonthSlotsFields(existing, Tomorrow(d), plan, providerId, nextId + |today|, i - |today|);
        assert (today + rest)[i] == rest[i - |today|];
      }
    } else {
      MonthSlotsLastDay(existing, d, plan, providerId, nextId);
      WalkDayFields(existing, d, plan, providerId, nextId, i);
    }
  }

  /** Slot starts in chronological order along a list. */
  predicate Chronological(r: seq<Slot>)
  {
    forall i, j :: 0 <= i < j < |r| ==> DateTimeBefore(r[i].start, r[j].start)
  }

  lemma ChronologicalAppend(a: seq<Slot>, b: seq<Slot>)
    requires Chronological(a) && Chronological(b)
    requires forall i, j :: 0 <= i < |a| && 0 <= j < |b| ==> DateTimeBefore(a[i].start, b[j].start)
    ensures Chronological(a + b)
  {
    forall i, j | 0 <= i < j < |a + b| ensures DateTimeBefore((a + b)[i].start, (a + b)[j].start) {
      if j < |a| {
        assert (a + b)[i] == a[i] && (a + b)[j] == a[j];
      } else if i >= |a| {
        assert (a + b)[i] == b[i - |a|] && (a + b)[j] == b[j - |a|];
      } else {
        assert (a + b)[i] == a[i] && (a + b)[j] == b[j - |a|];
      }
    }
  }

  /** One day's slots are in order of start time. */
  lemma WalkDayChronological(existing: seq<Slot>, d: Date, plan: Plan, providerId: int, nextId: int)
    requires ValidDate(d) && StartsIncreasing(plan)
    ensures Chronological(WalkDay(existing, d, plan, providerId, nextId))
  {
    var today := WalkDay(existing, d, plan, providerId, nextId);
    if Weekday(d) in plan.weekdays {
      EmitIncreasing(existing, d, plan.starts, plan.duration, providerId, nextId);
      forall i | 0 <= i < |today| ensures today[i].start.date == d {
        WalkDayFields(existing, d, plan, providerId, nextId, i);
      }
    }
  }

  /** The walk emits in chronological order: by day, and within a day by start time. */
  lemma {:induction false} MonthSlotsOrdered(existing: seq<Slot>, d: Date, plan: Plan, providerId: int, nextId: int)
    requires ValidDate(d) && StartsIncreasing(plan)
    ensures Chronological(MonthSlots(existing, d, plan, providerId, nextId))
    decreases DaysInMonth(d.year, d.month) - d.day
  {
    var today := WalkDay(existing, d, plan, providerId, nextId);
    WalkDayChronological(existing, d, plan, providerId, nextId);
    if d.day < DaysInMonth(d.year, d.month) {
      var rest := MonthSlots(existing, Tomorrow(d), plan, providerId, nextId + |today|);
      MonthSlotsOrdered(existing, Tomorrow(d), plan, providerId, nextId + |today|);
      forall i, j | 0 <= i < |today| && 0 <= j < |rest| ensures DateTimeBefore(today[i].start, rest[j].start) {
        WalkDayFields(existing, d, plan, providerId, nextId, i);
        MonthSlotsFields(existing, Tomorrow(d), plan, providerId, nextId + |today|, j);
      }
      ChronologicalAppend(today, rest);
      MonthSlotsStep(existing, d, plan, providerId, nextId);
    } else {
      MonthSlotsLastDay(existing, d, plan, providerId, nextId);
    }
  }

  lemma SlotExistsAppendLeft(a: seq<Slot>, b: seq<Slot>, providerId: int, at: DateTime)
    requires SlotExists(a, providerId, at)
    ensures SlotExists(a + b, providerId, at)
  {
    var i :| 0 <= i < |a| && a[i].providerId == providerId && a[i].start == at;
    assert (a + b)[i] == a[i];
  }

  lemma SlotExistsAppendRight(a: seq<Slot>, b: seq<Slot>, providerId: int, at: DateTime)
    requires SlotExists(b, providerId, at)
    ensures SlotExists(a + b, providerId, at)
  {
    var i :| 0 <= i < |b| && b[i].providerId == providerId && b[i].start == at;
    assert (a + b)[|a| + i] == b[i];
  }

  /** A slot held by a part of a list is held by the whole list. */
  lemma SlotExistsInPart(whole: seq<Slot>, a: seq<Slot>, b: seq<Slot>, providerId: int, at: DateTime)
    requires whole == a + b && (SlotExists(a, providerId, at) || SlotExists(b, providerId, at))
    ensures SlotExists(whole, providerId, at)
  {
    if SlotExists(a, providerId, at) {
      SlotExistsAppendLeft(a, b, providerId, at);
    } else {
      SlotExistsAppendRight(a, b, providerId, at);
    }
  }

  /** A listed day gets a slot at every candidate start the provider does not hold. */
  lemma WalkDayComplete(existing: seq<Slot>, d: Date, plan: Plan, providerId: int, nextId: int, m: int)
    requires ValidDate(d) && Weekday(d) in plan.weekdays
    requires m in plan.starts && !SlotExists(existing, providerId, DateTime(d, m))
    ensures SlotExists(WalkDay(existing, d, plan, providerId, nextId), providerId, DateTime(d, m))
  {
    var today := WalkDay(existing, d, plan, providerId, nextId);
    var j :| 0 <= j < |plan.starts| && plan.starts[j] == m;
    EmitComplete(existing, d, plan.starts, plan.duration, providerId, nextId, j);
    var i :| 0 <= i < |today| && today[i].start.minutes == m;
    WalkDayFields(existing, d, plan, providerId, nextId, i);
    assert today[i].providerId == providerId && today[i].start == DateTime(d, m);
  }

  /** The first walked day contributes every free candidate start when its weekday is listed. */
  lemma MonthSlotsCompleteFirstDay(existing: seq<Slot>, d: Date, plan: Plan, providerId: int, nextId: int, m: int)
    requires ValidDate(d) && Weekday(d) in plan.weekdays
    requires m in plan.starts && !SlotExists(existing, providerId, DateTime(d, m))
    ensures SlotExists(MonthSlots(existing, d, plan, providerId, nextId), providerId, DateTime(d, m))
  {
    var today := WalkDay(existing, d, plan, providerId, nextId);
    WalkDayComplete(existing, d, plan, providerId, nextId, m);
    if d.day < DaysInMonth(d.year, d.month) {
      MonthSlotsStep(existing, d, plan, providerId, nextId);
      var rest := MonthSlots(existing, Tomorrow(d), plan, providerId, nextId + |today|);
      SlotExistsInPart(MonthSlots(existing, d, plan, providerId, nextId), today, rest, providerId, DateTime(d, m));
    } else {
      MonthSlotsLastDay(existing, d, plan, providerId, nextId);
    }
  }

  /**
   * The month walk is complete: on every walked day whose weekday is listed, every candidate start
   * that the provider does not hold yet gets a slot.
   */
  lemma {:induction false} MonthSlotsComplete(existing: seq<Slot>, d: Date, plan: Plan, providerId: int, nextId: int, e: Date, m: int)
    requires ValidDate(d) && ValidDate(e)
    requires MonthOf(e) == MonthOf(d) && d.day <= e.day && Weekday(e) in plan.weekdays
    requires m in plan.starts && !SlotExists(existing, providerId, DateTime(e, m))
    ensures SlotExists(MonthSlots(existing, d, plan, providerId, nextId), providerId, DateTime(e, m))
    decreases DaysInMonth(d.year, d.month) - d.day
  {
    if e.day == d.day {
      assert e == d;
      MonthSlotsCompleteFirstDay(existing, d, plan, providerId, nextId, m);
    } else {
      var today := WalkDay(existing, d, plan, providerId, nextId);
      var next := Tomorrow(d);
      var restId := nextId + |today|;
      var rest := MonthSlots(existing, next, plan, providerId, restId);
      MonthSlotsStep(existing, d, plan, providerId, nextId);
      MonthSlotsComplete(existing, next, plan, providerId, restId, e, m);
      SlotExistsInPart(MonthSlots(existing, d, plan, providerId, nextId), today, rest, providerId, DateTime(e, m));
    }
  }

  /** Every slot of the walk belongs to the regenerated scope and is new: fresh, with an id from `nextId` on, on a listed weekday of the month. */
  lemma MonthSlotsMembers(existing: seq<Slot>, d: Date, plan: Plan, providerId: int, nextId: int)
    requires ValidDate(d)
    ensures forall s :: s in MonthSlots(existing, d, plan, providerId, nextId) ==>
              && InScope(s, providerId, MonthOf(d))
              && nextId <= s.id && FreshSlot(s, providerId, plan.duration)
              && ValidDate(s.start.date) && MonthOf(s.start.date) == MonthOf(d)
              && Weekday(s.start.date) in plan.weekdays && s.start.minutes in plan.starts
  {
    var r := MonthSlots(existing, d, plan, providerId, nextId);
    forall s | s in r
      ensures InScope(s, providerId, MonthOf(d)) && nextId <= s.id && FreshSlot(s, providerId, plan.duration)
      ensures ValidDate(s.start.date) && MonthOf(s.start.date) == MonthOf(d)
      ensures Weekday(s.start.date) in plan.weekdays && s.start.minutes in plan.starts
    {
      var i :| 0 <= i < |r| && r[i] == s;
      MonthSlotsFields(existing, d, plan, providerId, nextId, i);
    }
  }

  /** Without candidate starts the walk creates nothing. */
  lemma {:induction false} MonthSlotsNoStarts(existing: seq<Slot>, d: Date, plan: Plan, providerId: int, nextId: int)
    requires ValidDate(d) && plan.starts == []
    ensures MonthSlots(existing, d, plan, providerId, nextId) == []
    decreases DaysInMonth(d.year, d.month) - d.day
  {
    if d.day < DaysInMonth(d.year, d.month) {
      MonthSlotsStep(existing, d, plan, providerId, nextId);
      MonthSlotsNoStarts(existing, Tomorrow(d), plan, providerId, nextId);
    } else {
      MonthSlotsLastDay(existing, d, plan, providerId, nextId);
    }
  }

  // ---------------------------------------------------------------------------
  // Regeneration and the template store

  /** `generate_monthly_slots` after the horizon check: clear the provider's month, then append the new slots. */
  function Regenerated(slots: seq<Slot>, providerId: int, monthDate: Date, t: Template, nextId: int): seq<Slot>
    requires ValidDate(monthDate) && GenerationTerminates(t)
  {
    var kept := KeepOthers(slots, providerId, MonthOf(monthDate));
    kept + MonthSlots(kept, monthDate, PlanOf(t), providerId, nextId)
  }

  /** The slots a regeneration adds, after the kept ones. */
  function AddedSlots(slots: seq<Slot>, providerId: int, monthDate: Date, t: Template, nextId: int): seq<Slot>
    requires ValidDate(monthDate) && GenerationTerminates(t)
  {
    MonthSlots(KeepOthers(slots, providerId, MonthOf(monthDate)), monthDate, PlanOf(t), providerId, nextId)
  }

  /**
   * A regeneration replaces exactly the provider's month: every other slot stays, and every slot of
   * that provider and month afterwards is new, carries an id from `nextId` on, lies in the month on a
   * listed weekday and starts at one of the template's candidate times.
   */
  lemma RegeneratedScope(slots: seq<Slot>, providerId: int, monthDate: Date, t: Template, nextId: int)
    requires ValidDate(monthDate) && GenerationTerminates(t)
    ensures var r := Regenerated(slots, providerId, monthDate, t, nextId);
            && (forall s :: s in slots && !InScope(s, providerId, MonthOf(monthDate)) ==> s in r)
            && (forall s :: s in r && !InScope(s, providerId, MonthOf(monthDate)) ==> s in slots)
            && (forall s :: s in r && InScope(s, providerId, MonthOf(monthDate)) ==>
                  && nextId <= s.id && FreshSlot(s, providerId, t.slotDuration)
                  && ValidDate(s.start.date) && MonthOf(s.start.date) == MonthOf(monthDate)
                  && Weekday(s.start.date) in t.weekdays
                  && DayLoopTerminates(t) && s.start.minutes in TemplateStarts(t))
  {
    var kept := KeepOthers(slots, providerId, MonthOf(monthDate));
    var added := MonthSlots(kept, monthDate, PlanOf(t), providerId, nextId);
    KeepOthersMembers(slots, providerId, MonthOf(monthDate));
    MonthSlotsMembers(kept, monthDate, PlanOf(t), providerId, nextId);
    assert Regenerated(slots, providerId, monthDate, t, nextId) == kept + added;
  }

  /**
   * A regeneration is complete: afterwards the provider has a slot at every candidate time of the
   * template on every day of the month, from the month date on, whose weekday is listed.
   */
  lemma RegeneratedComplete(slots: seq<Slot>, providerId: int, monthDate: Date, t: Template, nextId: int, e: Date, m: int)
    requires ValidDate(monthDate) && GenerationTerminates(t) && ValidDate(e)
    requires MonthOf(e) == MonthOf(monthDate) && monthDate.day <= e.day && Weekday(e) in t.weekdays
    requires DayLoopTerminates(t) && m in TemplateStarts(t)
    ensures SlotExists(Regenerated(slots, providerId, monthDate, t, nextId), providerId, DateTime(e, m))
  {
    var kept := KeepOthers(slots, providerId, MonthOf(monthDate));
    var added := MonthSlots(kept, monthDate, PlanOf(t), providerId, nextId);
    assert Regenerated(slots, providerId, monthDate, t, nextId) == kept + added;
    if SlotExists(kept, providerId, DateTime(e, m)) {
      SlotExistsAppendLeft(kept, added, providerId, DateTime(e, m));
    } else {
      MonthSlotsComplete(kept, monthDate, PlanOf(t), providerId, nextId, e, m);
      SlotExistsAppendRight(kept, added, providerId, DateTime(e, m));
    }
  }

  /** When every id in the collection was handed out before `nextId`, none of the provider's earlier slots for the month survives, booked or not. */
  lemma RegeneratedClearsMonth(slots: seq<Slot>, slotCounter: int, providerId: int, monthDate: Date, t: Template)
    requires ValidDate(monthDate) && GenerationTerminates(t) && StoreInvariant(slots, slotCounter)
    ensures forall s :: s in slots && InScope(s, providerId, MonthOf(monthDate)) ==>
              s !in Regenerated(slots, providerId, monthDate, t, slotCounter + 1)
  {
    RegeneratedScope(slots, providerId, monthDate, t, slotCounter + 1);
  }

  /** A template whose start or end time does not parse still clears the month, and creates nothing. */
  lemma MalformedTemplateClearsMonth(slots: seq<Slot>, providerId: int, monthDate: Date, t: Template, nextId: int)
    requires ValidDate(monthDate) && GenerationTerminates(t)
    requires ParseClock(t.startTime).None? || ParseClock(t.endTime).None?
    ensures Regenerated(slots, providerId, monthDate, t, nextId) == KeepOthers(slots, providerId, MonthOf(monthDate))
  {
    var kept := KeepOthers(slots, providerId, MonthOf(monthDate));
    MonthSlotsNoStarts(kept, monthDate, PlanOf(t), providerId, nextId);
    assert kept + [] == kept;
  }

  /** Appending slots with the next ids, in chronological order, at starts the provider does not hold, keeps the invariant. */
  lemma StoreInvariantAppend(kept: seq<Slot>, added: seq<Slot>, slotCounter: int, providerId: int)
    requires StoreInvariant(kept, slotCounter)
    requires Chronological(added)
    requires forall i :: 0 <= i < |added| ==>
               && added[i].id == slotCounter + 1 + i && added[i].providerId == providerId
               && !SlotExists(kept, providerId, added[i].start)
    ensures StoreInvariant(kept + added, slotCounter + |added|)
  {
    var r := kept + added;
    forall i, j | 0 <= i < j < |r| ensures r[i].id < r[j].id {
      if j < |kept| {
        assert r[i] == kept[i] && r[j] == kept[j];
      } else if i >= |kept| {
        assert r[i] == added[i - |kept|] && r[j] == added[j - |kept|];
      } else {
        assert r[i] == kept[i] && r[j] == added[j - |kept|];
      }
    }
    forall i | 0 <= i < |r| ensures 1 <= r[i].id <= slotCounter + |added| {
      if i < |kept| {
        assert r[i] == kept[i];
      } else {
        assert r[i] == added[i - |kept|];
      }
    }
    forall i, j | 0 <= i < j < |r| && r[i].providerId == r[j].providerId ensures r[i].start != r[j].start {
      if j < |kept| {
        assert r[i] == kept[i] && r[j] == kept[j];
      } else if i >= |kept| {
        assert r[i] == added[i - |kept|] && r[j] == added[j - |kept|];
        assert DateTimeBefore(r[i].start, r[j].start);
      } else {
        assert r[i] == kept[i] && r[j] == added[j - |kept|];
      }
    }
  }

  /** The kept slots keep the invariant: the clear drops slots and keeps the order of the rest. */
  lemma KeepOthersInvariant(slots: seq<Slot>, slotCounter: int, providerId: int, month: Month)
    requires StoreInvariant(slots, slotCounter)
    ensures StoreInvariant(KeepOthers(slots, providerId, month), slotCounter)
  {
    var kept := KeepOthers(slots, providerId, month);
    KeepOthersMembers(slots, providerId, month);
    KeepOthersIdsIncreasing(slots, providerId, month);
    KeepOthersNoDuplicateStarts(slots, providerId, month);
    forall i | 0 <= i < |kept| ensures 1 <= kept[i].id <= slotCounter {
      assert kept[i] in slots;
    }
  }

  /** Regeneration keeps the engine's invariant and advances the counter by the number of new slots. */
  lemma RegeneratedInvariant(slots: seq<Slot>, slotCounter: int, providerId: int, monthDate: Date, t: Template)
    requires ValidDate(monthDate) && GenerationTerminates(t) && StoreInvariant(slots, slotCounter)
    ensures StoreInvariant(
              Regenerated(slots, providerId, monthDate, t, slotCounter + 1),
              slotCounter + |AddedSlots(slots, providerId, monthDate, t, slotCounter + 1)|)
  {
    var kept := KeepOthers(slots, providerId, MonthOf(monthDate));
    var added := MonthSlots(kept, monthDate, PlanOf(t), providerId, slotCounter + 1);
    RegenerationKeepsInvariant(slots, slotCounter, providerId, monthDate, t, kept, added, slotCounter + |added|);
  }

  /** The same, for the kept part, the added part and the advanced counter named apart. */
  lemma RegenerationKeepsInvariant(slots: seq<Slot>, slotCounter: int, providerId: int, monthDate: Date, t: Template,
                                   kept: seq<Slot>, added: seq<Slot>, newCounter: int)
    requires ValidDate(monthDate) && GenerationTerminates(t) && StoreInvariant(slots, slotCounter)
    requires kept == KeepOthers(slots, providerId, MonthOf(monthDate))
    requires added == MonthSlots(kept, monthDate, PlanOf(t), providerId, slotCounter + 1)
    requires newCounter == slotCounter + |added|
    ensures StoreInvariant(kept + added, newCounter)
  {
    KeepOthersInvariant(slots, slotCounter, providerId, MonthOf(monthDate));
    PlanOfIncreasing(t);
    MonthSlotsOrdered(kept, monthDate, PlanOf(t), providerId, slotCounter + 1);
    forall i | 0 <= i < |added|
      ensures added[i].id == slotCounter + 1 + i && added[i].providerId == providerId
      ensures !SlotExists(kept, providerId, added[i].start)
    {
      MonthSlotsFields(kept, monthDate, PlanOf(t), providerId, slotCounter + 1, i);
    }
    StoreInvariantAppend(kept, added, slotCounter, providerId);
  }


  /** Two slot lists that differ at most in their ids. */
  predicate SameExceptIds(a: seq<Slot>, b: seq<Slot>)
  {
    |a| == |b| && forall i :: 0 <= i < |a| ==> a[i].(id := b[i].id) == b[i]
  }

  lemma SameExceptIdsAppend(a: seq<Slot>, b: seq<Slot>, c: seq<Slot>, e: seq<Slot>)
    requires SameExceptIds(a, b) && SameExceptIds(c, e)
    ensures SameExceptIds(a + c, b + e)
  {
    forall i | 0 <= i < |a + c| ensures (a + c)[i].(id := (b + e)[i].id) == (b + e)[i] {
      if i < |a| {
        assert (a + c)[i] == a[i] && (b + e)[i] == b[i];
      } else {
        assert (a + c)[i] == c[i - |a|] && (b + e)[i] == e[i - |a|];
      }
    }
  }

  /** The day loop's output depends on the ids only through the ids themselves. */
  lemma {:induction false} EmitIgnoresIds(existing: seq<Slot>, d: Date, starts: seq<int>, duration: int, providerId: int, a: int, b: int)
    ensures SameExceptIds(Emit(existing, d, starts, duration, providerId, a), Emit(existing, d, starts, duration, providerId, b))
  {
    if starts != [] {
      if SlotExists(existing, providerId, DateTime(d, starts[0])) {
        EmitIgnoresIds(existing, d, starts[1..], duration, providerId, a, b);
      } else {
        EmitIgnoresIds(existing, d, starts[1..], duration, providerId, a + 1, b + 1);
        var ra := Emit(existing, d, starts[1..], duration, providerId, a + 1);
        var rb := Emit(existing, d, starts[1..], duration, providerId, b + 1);
        SameExceptIdsAppend([NewSlot(a, providerId, d, starts[0], duration)], [NewSlot(b, providerId, d, starts[0], duration)], ra, rb);
      }
    }
  }

  /** The month walk's output depends on the first id only through the ids. */
  lemma {:induction false} MonthSlotsIgnoreIds(existing: seq<Slot>, d: Date, plan: Plan, providerId: int, a: int, b: int)
    requires ValidDate(d)
    ensures SameExceptIds(MonthSlots(existing, d, plan, providerId, a), MonthSlots(existing, d, plan, providerId, b))
    decreases DaysInMonth(d.year, d.month) - d.day
  {
    var todayA := WalkDay(existing, d, plan, providerId, a);
    var todayB := WalkDay(existing, d, plan, providerId, b);
    if Weekday(d) in plan.weekdays {
      EmitIgnoresIds(existing, d, plan.starts, plan.duration, providerId, a, b);
    }
    if d.day < DaysInMonth(d.year, d.month) {
      MonthSlotsStep(existing, d, plan, providerId, a);
      MonthSlotsStep(existing, d, plan, providerId, b);
      MonthSlotsIgnoreIds(existing, Tomorrow(d), plan, providerId, a + |todayA|, b + |todayB|);
      SameExceptIdsAppend(todayA, todayB,
        MonthSlots(existing, Tomorrow(d), plan, providerId, a + |todayA|),
        MonthSlots(existing, Tomorrow(d), plan, providerId, b + |todayB|));
    } else {
      MonthSlotsLastDay(existing, d, plan, providerId, a);
      MonthSlotsLastDay(existing, d, plan, providerId, b);
    }
  }

  /** A list whose every slot is in scope is cleared completely. */
  lemma {:induction false} KeepOthersAllInScope(slots: seq<Slot>, providerId: int, month: Month)
    requires forall s :: s in slots ==> InScope(s, providerId, month)
    ensures KeepOthers(slots, providerId, month) == []
  {
    if slots != [] {
      assert slots[0] in slots;
      KeepOthersAllInScope(slots[1..], providerId, month);
    }
  }

  /** A kept list holds nothing in scope, so clearing it again keeps it whole. */
  lemma KeepOthersTwice(slots: seq<Slot>, providerId: int, month: Month)
    ensures KeepOthers(KeepOthers(slots, providerId, month), providerId, month) == KeepOthers(slots, providerId, month)
  {
    var kept := KeepOthers(slots, providerId, month);
    KeepOthersMembers(slots, providerId, month);
    forall i | 0 <= i < |kept| ensures !InScope(kept[i], providerId, month) {
      assert kept[i] in kept;
    }
    KeepOthersUnscoped(kept, providerId, month);
  }

  /**
   * Idempotent regeneration: regenerating a month a second time with the same provider and
   * template gives the same collection again, slot for slot, except for the fresh ids.
   */
  lemma RegenerationIdempotent(slots: seq<Slot>, providerId: int, monthDate: Date, t: Template, firstId: int, secondId: int)
    requires ValidDate(monthDate) && GenerationTerminates(t)
    ensures var once := Regenerated(slots, providerId, monthDate, t, firstId);
            SameExceptIds(once, Regenerated(once, providerId, monthDate, t, secondId))
  {
    var month := MonthOf(monthDate);
    var plan := PlanOf(t);
    var kept := KeepOthers(slots, providerId, month);
    var added := MonthSlots(kept, monthDate, plan, providerId, firstId);
    var once := kept + added;
    assert once == Regenerated(slots, providerId, monthDate, t, firstId);
    KeepOthersAppend(kept, added, providerId, month);
    KeepOthersTwice(slots, providerId, month);
    MonthSlotsMembers(kept, monthDate, plan, providerId, firstId);
    KeepOthersAllInScope(added, providerId, month);
    assert kept + [] == kept;
    assert KeepOthers(once, providerId, month) == kept;
    var again := MonthSlots(kept, monthDate, plan, providerId, secondId);
    assert Regenerated(once, providerId, monthDate, t, secondId) == kept + again;
    MonthSlotsIgnoreIds(kept, monthDate, plan, providerId, firstId, secondId);
    SameExceptIdsAppend(kept, kept, added, again);
  }

  /** `update_availability_template`: create the provider's inner map if absent, then set the month. */
  function RecordTemplate(configs: map<int, map<Month, Template>>, providerId: int, month: Month, t: Template): (r: map<int, map<Month, Template>>)
    ensures r.Keys == configs.Keys + {providerId}
    ensures month in r[providerId] && r[providerId][month] == t
    ensures forall q :: q in configs && q != providerId ==> r[q] == configs[q]
    ensures providerId in configs ==> r[providerId].Keys == configs[providerId].Keys + {month}
    ensures providerId !in configs ==> r[providerId].Keys == {month}
    ensures forall m :: providerId in configs && m in configs[providerId] && m != month ==>
              r[providerId][m] == configs[providerId][m]
  {
    var inner := if providerId in configs then configs[providerId] else map[];
    configs[providerId := inner[month := t]]
  }
}

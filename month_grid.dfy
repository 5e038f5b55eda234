/**
 * The month view of `CalendarState.calendar_grid`: six Sunday-first weeks of day cells
 * around the selected month, each holding the selected provider's slots of that day in
 * start order. The class method in calendar_state.dfy builds the grid day by day and is
 * proved to produce `Grid`; the lemmas here state what the grid looks like.
 */
module MonthGrid {
  import opened Dates
  import opened SlotEngine

  /** One cell: the date, whether it belongs to the selected month, and its slots. */
  datatype CalendarDay = CalendarDay(date: Date, isCurrentMonth: bool, slots: seq<Slot>)

  /** Six weeks of seven days. */
  const GridDays := 42

  /** Days shown before the first of the month: 0 when the first is a Sunday, 6 when it is a Saturday. */
  function LeadingDays(first: Date): (k: int)
    requires ValidDate(first)
    ensures 0 <= k < 7
  {
    (Weekday(first) + 1) % 7
  }

  /** The first cell's date: the first of the selected month less its leading days. */
  function GridStart(selected: Date): Date
    requires ValidDate(selected)
  {
    var first := FirstOfMonth(selected);
    AddDays(first, -LeadingDays(first))
  }

  // ---------------------------------------------------------------------------
  // The slots of one cell

  /** The slots of a provider whose start lies on `day`, in store order. */
  function SlotsOn(slots: seq<Slot>, providerId: int, day: Date): (r: seq<Slot>)
    ensures |r| <= |slots|
    ensures forall s :: s in r <==> s in slots && s.providerId == providerId && s.start.date == day
  {
    if slots == [] then []
    else
      var rest := SlotsOn(slots[1..], providerId, day);
      assert forall s :: s in slots <==> s == slots[0] || s in slots[1..];
      if slots[0].providerId == providerId && slots[0].start.date == day then [slots[0]] + rest else rest
  }

  /** In start order: no slot starts before one listed ahead of it. */
  predicate StartOrdered(r: seq<Slot>)
  {
    forall i, j :: 0 <= i < j < |r| ==> !DateTimeBefore(r[j].start, r[i].start)
  }

  /** Start order is total and transitive on the date-times the store holds. */
  lemma NotBeforeTransitive(a: DateTime, b: DateTime, c: DateTime)
    requires !DateTimeBefore(b, a) && !DateTimeBefore(c, b)
    ensures !DateTimeBefore(c, a)
  {
  }

  /** Insertion of one slot ahead of the first slot that does not start before it. */
  function InsertByStart(x: Slot, r: seq<Slot>): (q: seq<Slot>)
    ensures |q| == |r| + 1
    ensures multiset(q) == multiset(r) + multiset{x}
  {
    if r == [] || !DateTimeBefore(r[0].start, x.start) then [x] + r
    else
      assert r == [r[0]] + r[1..];
      [r[0]] + InsertByStart(x, r[1..])
  }

  lemma {:induction false} InsertByStartOrdered(x: Slot, r: seq<Slot>)
    requires StartOrdered(r)
    ensures StartOrdered(InsertByStart(x, r))
  {
    var q := InsertByStart(x, r);
    if r == [] || !DateTimeBefore(r[0].start, x.start) {
      forall j | 1 <= j < |q| ensures !DateTimeBefore(q[j].start, x.start) {
        NotBeforeTransitive(x.start, r[0].start, r[j - 1].start);
      }
    } else {
      var tail := InsertByStart(x, r[1..]);
      InsertByStartOrdered(x, r[1..]);
      forall j | 0 <= j < |tail| ensures !DateTimeBefore(tail[j].start, r[0].start) {
        assert tail[j] in multiset(tail);
        if tail[j] != x {
          assert tail[j] in multiset(r[1..]);
          var k :| 0 <= k < |r[1..]| && r[1..][k] == tail[j];
          assert r[k + 1] == tail[j];
        }
      }
      assert q == [r[0]] + tail;
    }
  }

  /** `sorted(day_slots, key=start_datetime)`: an insertion sort. */
  function SortByStart(r: seq<Slot>): (q: seq<Slot>)
    ensures |q| == |r|
    ensures multiset(q) == multiset(r)
  {
    if r == [] then []
    else
      assert r == [r[0]] + r[1..];
      InsertByStart(r[0], SortByStart(r[1..]))
  }

  /** The sort's result is in start order and is a permutation of its input. */
  lemma {:induction false} SortByStartOrdered(r: seq<Slot>)
    ensures StartOrdered(SortByStart(r))
    ensures multiset(SortByStart(r)) == multiset(r)
  {
    if r != [] {
      SortByStartOrdered(r[1..]);
      InsertByStartOrdered(r[0], SortByStart(r[1..]));
    }
  }

  // ---------------------------------------------------------------------------
  // The grid

  /** The cell of one day: the flag compares month numbers only, as the source does. */
  function Cell(slots: seq<Slot>, providerId: int, selected: Date, day: Date): CalendarDay
  {
    CalendarDay(day, day.month == selected.month, SortByStart(SlotsOn(slots, providerId, day)))
  }

  /** The date of cell `i`: `i` days after the grid's first date. */
  function GridDate(selected: Date, i: int): Date
    requires ValidDate(selected)
  {
    AddDays(GridStart(selected), i)
  }

  function Grid(slots: seq<Slot>, providerId: int, selected: Date): (g: seq<CalendarDay>)
    requires ValidDate(selected)
    ensures |g| == GridDays
  {
    seq(GridDays, i requires 0 <= i < GridDays => Cell(slots, providerId, selected, GridDate(selected, i)))
  }

  /** `grid` holds the first `i` cells of the month view. */
  predicate GridPrefix(grid: seq<CalendarDay>, slots: seq<Slot>, providerId: int, selected: Date, i: int)
    requires ValidDate(selected)
  {
    |grid| == i && forall j :: 0 <= j < i ==> grid[j] == Cell(slots, providerId, selected, GridDate(selected, j))
  }

  /** One step of the day-by-day construction: the cell of cell `i`'s date extends the prefix, and the next date is cell `i + 1`'s. */
  lemma GridPrefixStep(grid: seq<CalendarDay>, slots: seq<Slot>, providerId: int, selected: Date, i: int,
                       current: Date, cell: CalendarDay, next: Date)
    requires ValidDate(selected) && 0 <= i && GridPrefix(grid, slots, providerId, selected, i)
    requires current == GridDate(selected, i) && cell == Cell(slots, providerId, selected, current)
    requires next == NextDay(current)
    ensures GridPrefix(grid + [cell], slots, providerId, selected, i + 1)
    ensures next == GridDate(selected, i + 1)
  {
    AddDaysAdd(GridStart(selected), i, 1);
    AddDaysOne(current);
  }

  /** The complete prefix is the grid. */
  lemma GridPrefixDone(grid: seq<CalendarDay>, slots: seq<Slot>, providerId: int, selected: Date)
    requires ValidDate(selected) && GridPrefix(grid, slots, providerId, selected, GridDays)
    ensures grid == Grid(slots, providerId, selected)
  {
  }

  /** The ordinal of the `i`th cell's date, counted from the first of the month. */
  lemma GridOrdinal(slots: seq<Slot>, providerId: int, selected: Date, i: int)
    requires ValidDate(selected) && 0 <= i < GridDays
    ensures var first := FirstOfMonth(selected);
            Ordinal(Grid(slots, providerId, selected)[i].date) == Ordinal(first) - LeadingDays(first) + i
  {
    var first := FirstOfMonth(selected);
    OrdinalAddDays(first, -LeadingDays(first));
    OrdinalAddDays(GridStart(selected), i);
  }

  /** Counting back `(w + 1) % 7` days from weekday `w` lands on weekday 6. */
  lemma SundayOffset(o: int)
    ensures (o - ((o + 6) % 7 + 1) % 7 + 6) % 7 == 6
  {
    var q := (o + 6) / 7;
    var w := (o + 6) % 7;
    assert o + 6 == 7 * q + w;
    if w == 6 {
      assert o - ((o + 6) % 7 + 1) % 7 + 6 == 7 * q + 6;
    } else {
      assert o - ((o + 6) % 7 + 1) % 7 + 6 == 7 * (q - 1) + 6;
    }
  }

  /** The grid opens on a Sunday. */
  lemma GridStartsOnSunday(slots: seq<Slot>, providerId: int, selected: Date)
    requires ValidDate(selected)
    ensures Weekday(Grid(slots, providerId, selected)[0].date) == 6
  {
    GridOrdinal(slots, providerId, selected, 0);
    SundayOffset(Ordinal(FirstOfMonth(selected)));
  }

  /** Each cell is the day after the one before it. */
  lemma GridConsecutive(slots: seq<Slot>, providerId: int, selected: Date, i: int)
    requires ValidDate(selected) && 0 <= i < GridDays - 1
    ensures var g := Grid(slots, providerId, selected); g[i + 1].date == NextDay(g[i].date)
  {
    var g := Grid(slots, providerId, selected);
    GridOrdinal(slots, providerId, selected, i);
    GridOrdinal(slots, providerId, selected, i + 1);
    OrdinalNextDay(g[i].date);
    OrdinalInjective(g[i + 1].date, NextDay(g[i].date));
  }

  /**
   * Every day of the selected month is shown, in order, starting in the first week:
   * day `j` sits in cell `LeadingDays(first) + j - 1`, and the month ends within the six weeks.
   */
  lemma GridCoversMonth(slots: seq<Slot>, providerId: int, selected: Date, j: int)
    requires ValidDate(selected) && 1 <= j <= DaysInMonth(selected.year, selected.month)
    ensures var k := LeadingDays(FirstOfMonth(selected));
            && k < 7
            && k + DaysInMonth(selected.year, selected.month) <= GridDays
            && Grid(slots, providerId, selected)[k + j - 1].date == Date(selected.year, selected.month, j)
  {
    var first := FirstOfMonth(selected);
    var i := LeadingDays(first) + j - 1;
    GridOrdinal(slots, providerId, selected, i);
    DayInMonthByOrdinal(MonthOf(selected), Grid(slots, providerId, selected)[i].date, j - 1);
  }

  /**
   * The current-month flag, which compares month numbers only, marks exactly the days of the
   * selected month: the six weeks reach no further than the months on either side, whose
   * numbers differ from the selected one.
   */
  lemma GridCurrentMonth(slots: seq<Slot>, providerId: int, selected: Date, i: int)
    requires ValidDate(selected) && 0 <= i < GridDays
    ensures var c := Grid(slots, providerId, selected)[i];
            c.isCurrentMonth <==> MonthOf(c.date) == MonthOf(selected)
  {
    var m := MonthOf(selected);
    var c := Grid(slots, providerId, selected)[i];
    GridOrdinal(slots, providerId, selected, i);
    MonthByOrdinal(m, c.date);
  }

  /**
   * A cell holds exactly the provider's slots that start on its day, as a permutation of
   * them in store order, sorted by start.
   */
  lemma GridCellSlots(slots: seq<Slot>, providerId: int, selected: Date, i: int)
    requires ValidDate(selected) && 0 <= i < GridDays
    ensures var c := Grid(slots, providerId, selected)[i];
            && StartOrdered(c.slots)
            && multiset(c.slots) == multiset(SlotsOn(slots, providerId, c.date))
            && (forall s :: s in c.slots <==> s in slots && s.providerId == providerId && s.start.date == c.date)
  {
    var c := Grid(slots, providerId, selected)[i];
    SortByStartOrdered(SlotsOn(slots, providerId, c.date));
    forall s ensures s in c.slots <==> s in SlotsOn(slots, providerId, c.date) {
      assert s in c.slots <==> s in multiset(c.slots);
    }
  }
}

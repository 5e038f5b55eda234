# Calendar slot engine and route guard of the appointment system

This project models two parts of an appointment-scheduling web application in Dafny and
proves properties of both.

**`CalendarState`** expands a weekly availability template into concrete appointment slots
for one provider and one month. A template has weekdays, a start time, an end time and a slot
length.
- `generate_monthly_slots` first refuses months beyond a six-month horizon.
- It then drops the provider's slots labelled with that month.
- It walks the month day by day. On every listed weekday it steps a cursor from the start time
  while a whole slot still fits before the end time.
- It skips starts the provider already holds and numbers the others with a running counter.
- It appends the new slots and records the template used for that provider and month.

Beside it sit the 42-day month grid shown to the user, the weekday picker of the template form,
month navigation, provider selection and slot selection.

**`AuthState`** holds the session: a token cookie and the signed-in user's record.
- A user is signed in when both the token and the record are non-empty.
- `check_auth` runs on every page load. When a token has no record it first asks the backend
  for the record. It then redirects by sign-in state, role and path.
- The login, registration and logout events set and clear the session. The login pages check
  which roles they admit.

Modules:

- `Dates`: the part of Python's `date` arithmetic the source uses. Dates are counted by their
  proleptic Gregorian ordinal. `weekday()` runs from Monday = 0. Days are added one at a time,
  and the first of a month is `replace(day=1)`.
- `Parsing`: `strptime(s, "%H:%M")` for template times and `int(s)` for the provider id chosen
  in the form. Each returns `None` where Python raises `ValueError`.
- `SlotEngine`: the slot engine as functions of values, with its lemmas:
  - the horizon, the duplicate check and the scoped clear;
  - the day generator (`DaySlots`, over the cursor positions `CandidateStarts`);
  - the month walk (`MonthSlots`) and regeneration (`Regenerated`);
  - the template store.
- `MonthGrid`: the grid of `calendar_grid` as a function, with lemmas on its shape and cells.
- `Templates`: `toggle_template_weekday` on the weekday list, with `list.remove` and
  `list.sort` written out, and the rows of `template_weekdays`.
- `CalendarStates`: the class `CalendarState` with the source's fields.
  - Its methods run the source's loops, with `while` and `for` loops and their invariants.
  - Each method is proved to produce exactly what the `SlotEngine`, `MonthGrid` and `Templates`
    functions describe, so those modules' lemmas hold of the class.
  - `Valid()` is the class invariant:
    - ids increase along the collection and stay at or below the counter;
    - no provider holds two slots at the same start;
    - the edited template's weekday list is sorted without repetitions, and its slot length is
      positive;
    - the shown month is a first of month.
- `Auth`:
  - the route guard of `check_auth` as the decision function `Guard`;
  - the session changes of the events as functions of the backend's reply;
  - the class `AuthState`, whose methods are proved to follow those functions.

The wall clock (`datetime.now()`) is the parameter `today`. The backend's HTTP replies are
parameters of datatypes `RefreshReply`, `LoginReply` and `RegisterReply`.

Two documented expectations differ from what the code does; the model follows the code:
- With today 2024-01-15, the month 2024-07-01 is expected to be accepted.
  The code's limit is the first of the month 186 days after the current month's first, which is
  2024-07-01, and the code compares with strict `<`. The model compares dates only, so it refuses
  July (`SlotEngine.ValidateMonthLimitExample`). The code compares date-times: both the limit and
  `selected_month` keep the time of day at which `datetime.now()` was read. It accepts July
  whenever `selected_month`'s time of day is earlier than the time of the check, as when the page
  was loaded before the button was pressed, and refuses it otherwise.
- A malformed template is expected to be a validation error that changes nothing. The code logs
  it, generates nothing for each day, and still clears the month and records the template
  (`SlotEngine.MalformedTemplateClearsMonth`).

Two behaviours of the code are modelled as written:
- `change_month(-1)` moves back 31 days and takes the first of that month. After a month of
  fewer than 31 days this lands two months back (`CalendarStates.ChangeMonthBackward`).
- A login refused for its role has already stored the token and the user record, so the user is
  signed in afterwards (`Auth.RefusedRoleStaysSignedIn`).

## Model

| member | source | states |
|---|---|---|
| Dates.DaysInMonth | app/states/calendar_state.py:119-125 | a month has 28 to 31 days, and 29 exactly for February of a leap year |
| Dates.FirstOfMonth | app/states/calendar_state.py:189 | `replace(day=1)` is a valid date of the same month, on day 1 |
| Dates.Weekday | app/states/calendar_state.py:120 | `weekday()` lies in 0..6 |
| Dates.NextDay | app/states/calendar_state.py:125 | the day after a valid date is a valid date |
| Dates.AddDays | app/states/calendar_state.py:133 | adding any number of days gives a valid date |
| Dates.OrdinalNextDay | app/states/calendar_state.py:125 | the next day has the next ordinal |
| Dates.OrdinalAddDays | app/states/calendar_state.py:190-192 | adding n days moves the ordinal by exactly n, in either direction |
| Dates.WeekdayNextDay | app/states/calendar_state.py:119-125 | the weekday advances by one from day to day, Sunday wrapping to Monday |
| Dates.AddDaysAdd | app/states/calendar_state.py:190-210 | adding a then b days is adding a + b days |
| Dates.SixMonthsOfDays | app/states/calendar_state.py:53-55 | 186 days after a month's first is day 3 to 6 of the month six months later |
| Dates.ThirtyOneDaysFromFirst | app/states/calendar_state.py:133-134 | 31 days after a month's first lies in the next month |
| Parsing.ClockField | app/states/calendar_state.py:72-73 | an accepted field's value lies between 0 and the directive's maximum |
| Parsing.ClockHourField | app/states/calendar_state.py:72-73 | an hour field is accepted exactly when it matches one of `%H`'s alternatives `2[0-3]`, `[0-1]\d` and `\d`, with the value its digits spell |
| Parsing.ClockMinuteField | app/states/calendar_state.py:72-73 | a minute field is accepted exactly when it matches one of `%M`'s alternatives `[0-5]\d` and `\d`, with the value its digits spell |
| Parsing.ParseClock | app/states/calendar_state.py:72-73 | a parsed time lies in 0..1439 minutes |
| Parsing.ParseFormatClock | app/states/calendar_state.py:72-73 | every time written `HH:MM` parses back to itself |
| Parsing.ParseClockAcceptsExamples | app/states/calendar_state.py:39-40 | "09:00", "17:00" and "9:5" parse to their minutes |
| Parsing.ParseClockRejectsExamples | app/states/calendar_state.py:72-80 | "24:00", "12:60", "09:00:00" and "" are refused |
| Parsing.ParseInt | app/states/calendar_state.py:173 | `int(s)` accepts only strings whose stripped form is non-empty |
| Parsing.ParseIntToString | app/states/calendar_state.py:173 | every integer's decimal form is read back as that integer |
| Parsing.ParseIntAcceptsExamples | app/states/calendar_state.py:173 | blanks around the digits and a sign are admitted |
| Parsing.ParseIntSpaces | app/states/calendar_state.py:173 | a non-ASCII blank around the digits is dropped, and the ASCII separator `\x1c` makes `int()` fail |
| Parsing.ParseIntSeparators | app/states/calendar_state.py:173 | a single `_` between digits is admitted and a double one refused |
| Parsing.ParseIntRejectsExamples | app/states/calendar_state.py:172-177 | "" and "abc" are refused |
| SlotEngine.ValidateMonthLimitExact | app/states/calendar_state.py:52-56 | a month passes the horizon check exactly when it comes before the sixth month after the current one |
| SlotEngine.ValidateMonthLimitExample | app/states/calendar_state.py:52-56 | with today 2024-01-15, June 1 and June 30 of 2024 pass and July 1 and August 1 of 2024 are refused |
| SlotEngine.SlotExists | app/states/calendar_state.py:58-65 | true exactly when some slot of the provider starts at that moment |
| SlotEngine.KeepOthersMembers | app/states/calendar_state.py:109-116 | the clear keeps exactly the slots that are not the provider's slots labelled with the month |
| SlotEngine.KeepOthersUnscoped | app/states/calendar_state.py:109-116 | a collection with none of the provider's month is kept whole |
| SlotEngine.KeepOthersIdsIncreasing | app/states/calendar_state.py:109-116 | the clear keeps ids increasing |
| SlotEngine.KeepOthersNoDuplicateStarts | app/states/calendar_state.py:109-116 | the clear keeps the (provider, start) key unique |
| SlotEngine.KeepOthersAppend | app/states/calendar_state.py:110-116 | clearing a concatenation clears each part |
| SlotEngine.KeepOthersAllInScope | app/states/calendar_state.py:110-116 | a list wholly in scope is cleared completely |
| SlotEngine.KeepOthersTwice | app/states/calendar_state.py:110-116 | clearing twice is clearing once |
| SlotEngine.CandidateStarts | app/states/calendar_state.py:81-95 | there are no cursor positions exactly when no slot fits; else the first is the start time, and the loop stops once the next slot would end past the end time |
| SlotEngine.CandidateStartsBounds | app/states/calendar_state.py:81-95 | every cursor position leaves room for a whole slot inside the window, and the positions strictly increase |
| SlotEngine.CandidateStartsAt | app/states/calendar_state.py:75-95 | the i-th cursor position is i slot lengths after the start |
| SlotEngine.CandidateStartsStep | app/states/calendar_state.py:81-95 | while a slot fits, the cursor's first position is followed by the positions from the next one |
| SlotEngine.CandidateStartsCount | app/states/calendar_state.py:81-95 | a window fits exactly n slots when n end by the end time and n + 1 would not |
| SlotEngine.OneSlotWindow | app/states/calendar_state.py:81-95 | a window shorter than two slots yields its start only |
| SlotEngine.HalfHoursNineToFive | app/states/calendar_state.py:81-95 | 09:00 to 17:00 in steps of 30 minutes gives 16 starts, 09:00 to 16:30 |
| SlotEngine.TemplateStarts | app/states/calendar_state.py:71-80 | a template whose times do not parse yields no starts; any starts imply parsed times and a positive length |
| SlotEngine.TemplateStartsBounds | app/states/calendar_state.py:72-95 | a template's starts lie between its parsed start and end times, a whole slot before the end, and increase |
| SlotEngine.TemplateStartsOfWindow | app/states/calendar_state.py:72-76 | with parsed times and a positive length the starts are the cursor positions of that window |
| SlotEngine.DefaultTemplateWindow | app/states/calendar_state.py:37-42 | the default template's window is 09:00 to 17:00 in steps of 30 |
| SlotEngine.DefaultTemplateStarts | app/states/calendar_state.py:37-42 | the default template fits exactly 16 slots per day, 09:00 to 16:30 |
| SlotEngine.TenToTen | app/states/calendar_state.py:72 | "09:50" parses to 590 minutes |
| SlotEngine.ShortWindowStarts | app/states/calendar_state.py:81 | 09:00 to 09:50 with 30-minute slots yields only 09:00; no partial slot is emitted |
| SlotEngine.NewSlot | app/states/calendar_state.py:84-94 | a new slot belongs to the provider, is one slot length long, unbooked, priced 5000 and labelled with its day's month |
| SlotEngine.Emit | app/states/calendar_state.py:81-95 | the day loop emits at most one slot per cursor position |
| SlotEngine.EmitStep | app/states/calendar_state.py:82-94 | a held start is skipped, a free one takes the next id |
| SlotEngine.DayLoopSkip | app/states/calendar_state.py:82-95 | a turn at a held start keeps the loop invariant without emitting |
| SlotEngine.DayLoopEmit | app/states/calendar_state.py:82-95 | a turn at a free start keeps the loop invariant with the slot appended and the counter advanced |
| SlotEngine.DayLoopDone | app/states/calendar_state.py:81 | when no slot fits the emitted slots are the day's whole output |
| SlotEngine.EmitFields | app/states/calendar_state.py:82-94 | each emitted slot is fresh, on the day, numbered in turn, at a cursor position the provider did not hold |
| SlotEngine.EmitComplete | app/states/calendar_state.py:81-95 | every cursor position the provider does not hold is emitted |
| SlotEngine.EmitIncreasing | app/states/calendar_state.py:81-95 | emitted starts keep the cursor's increasing order |
| SlotEngine.DaySlots | app/states/calendar_state.py:67-96 | a day yields at most as many slots as the template has starts |
| SlotEngine.DaySlotsMalformed | app/states/calendar_state.py:77-80 | an unparsable start or end time yields no slots |
| SlotEngine.DaySlotsFields | app/states/calendar_state.py:82-94 | each of the day's slots is fresh, on that day, numbered in turn, at a free template start |
| SlotEngine.DaySlotsIncreasing | app/states/calendar_state.py:81-95 | the day's slots come out in increasing start time |
| SlotEngine.DaySlotsComplete | app/states/calendar_state.py:81-95 | every template start the provider does not hold that day gets a slot |
| SlotEngine.DaySlotsInWindow | app/states/calendar_state.py:81-94 | each slot starts at or after the start time, ends by the end time and lasts one slot length |
| SlotEngine.DaySlotsOfWindow | app/states/calendar_state.py:72-95 | with both times parsed the day's slots are the emission over that window's cursor positions |
| SlotEngine.ListedDayTerminates | app/states/calendar_state.py:119-122 | a day whose weekday is listed runs a day loop that terminates |
| SlotEngine.PlanOf | app/states/calendar_state.py:117-125 | a plan with starts comes from a template whose day loop terminates |
| SlotEngine.PlanOfIncreasing | app/states/calendar_state.py:81-95 | a plan's starts increase strictly |
| SlotEngine.WalkDayIsDaySlots | app/states/calendar_state.py:120-124 | on a listed weekday the walk runs exactly the day generator with the template |
| SlotEngine.WalkDayUnlisted | app/states/calendar_state.py:120 | an unlisted weekday yields nothing |
| SlotEngine.WalkDayFields | app/states/calendar_state.py:120-124 | each slot of a walked day is fresh, numbered in turn, on a listed weekday, at a free start |
| SlotEngine.WalkDayComplete | app/states/calendar_state.py:120-124 | a listed day gets a slot at every free start |
| SlotEngine.WalkDayChronological | app/states/calendar_state.py:81-95 | a day's slots are in chronological order |
| SlotEngine.NextDayInMonth | app/states/calendar_state.py:119-125 | the next day stays in the month exactly before the month's last day, and is then the next day number |
| SlotEngine.Tomorrow | app/states/calendar_state.py:125 | the following day number is a valid date of the same month |
| SlotEngine.MonthSlotsStep | app/states/calendar_state.py:119-125 | the walk of a month from a day is that day's slots followed by the walk from the next day with the following ids |
| SlotEngine.MonthSlotsLastDay | app/states/calendar_state.py:119-125 | the walk ends with the month's last day |
| SlotEngine.MonthLoopStep | app/states/calendar_state.py:119-125 | one day of the month loop keeps its invariant inside the month, and completes the month's slots after its last day |
| SlotEngine.MonthSlotsFields | app/states/calendar_state.py:117-125 | each walked slot is fresh, numbered in turn, in the month from the start day on, on a listed weekday, at a free start |
| SlotEngine.MonthSlotsMembers | app/states/calendar_state.py:117-125 | every walked slot belongs to the provider's month and has an id from the first id on |
| SlotEngine.MonthSlotsOrdered | app/states/calendar_state.py:117-125 | the walk emits in chronological order |
| SlotEngine.MonthSlotsCompleteFirstDay | app/states/calendar_state.py:117-125 | the first walked day contributes every free start when listed |
| SlotEngine.MonthSlotsComplete | app/states/calendar_state.py:117-125 | every listed day of the month from the start day gets a slot at every free start |
| SlotEngine.MonthSlotsNoStarts | app/states/calendar_state.py:117-125 | without starts the walk creates nothing |
| SlotEngine.RegeneratedScope | app/states/calendar_state.py:109-127 | regeneration keeps every slot outside the provider's month, adds none outside it, and every slot inside it afterwards is new, on a listed weekday, at a template start |
| SlotEngine.RegeneratedComplete | app/states/calendar_state.py:109-127 | afterwards the provider has a slot at every template start on every listed day of the month from the month date on |
| SlotEngine.RegeneratedClearsMonth | app/states/calendar_state.py:109-116 | none of the provider's earlier slots of the month survives, booked or not |
| SlotEngine.MalformedTemplateClearsMonth | app/states/calendar_state.py:77-127 | an unparsable template still clears the month and adds nothing |
| SlotEngine.StoreInvariantAppend | app/states/calendar_state.py:126 | appending slots with the next ids in chronological order, at starts not held, keeps the invariant |
| SlotEngine.KeepOthersInvariant | app/states/calendar_state.py:109-116 | the clear keeps the invariant |
| SlotEngine.RegeneratedInvariant | app/states/calendar_state.py:109-127 | regeneration keeps the invariant and advances the counter by the number of new slots |
| SlotEngine.RegenerationKeepsInvariant | app/states/calendar_state.py:109-127 | the same, with the kept part, the added part and the new counter named |
| SlotEngine.EmitIgnoresIds | app/states/calendar_state.py:82-86 | the day's output differs between first ids only in the ids |
| SlotEngine.MonthSlotsIgnoreIds | app/states/calendar_state.py:117-125 | the month's output differs between first ids only in the ids |
| SlotEngine.RegenerationIdempotent | app/states/calendar_state.py:109-127 | regenerating a month again with the same provider and template gives the same collection up to ids |
| SlotEngine.RecordTemplate | app/states/calendar_state.py:162-168 | the provider's inner map is created if absent, the month maps to the template, and every other entry is unchanged |
| MonthGrid.LeadingDays | app/states/calendar_state.py:190-192 | the days shown before the first of the month number 0 to 6 |
| MonthGrid.SlotsOn | app/states/calendar_state.py:196-201 | a cell's slots are exactly the provider's slots starting on its day |
| MonthGrid.InsertByStart | app/states/calendar_state.py:207 | insertion adds one slot and keeps the others |
| MonthGrid.InsertByStartOrdered | app/states/calendar_state.py:207 | insertion keeps the start order |
| MonthGrid.SortByStart | app/states/calendar_state.py:207 | the sort is a permutation |
| MonthGrid.SortByStartOrdered | app/states/calendar_state.py:207 | the sort's result is in start order and a permutation of its input |
| MonthGrid.Grid | app/states/calendar_state.py:193-211 | the grid has 42 cells |
| MonthGrid.GridPrefixStep | app/states/calendar_state.py:195-210 | one turn of the grid loop appends the cell of the cursor's date and moves the cursor to the next cell's date |
| MonthGrid.GridPrefixDone | app/states/calendar_state.py:195-211 | after 42 turns the loop's list is the grid |
| MonthGrid.GridOrdinal | app/states/calendar_state.py:189-210 | cell i is i days after the first of the month less its leading days |
| MonthGrid.GridStartsOnSunday | app/states/calendar_state.py:189-192 | the grid opens on a Sunday |
| MonthGrid.GridConsecutive | app/states/calendar_state.py:210 | each cell is the day after the previous one |
| MonthGrid.GridCoversMonth | app/states/calendar_state.py:189-210 | every day of the month is shown in order from the first week, and the month ends within the six weeks |
| MonthGrid.GridCurrentMonth | app/states/calendar_state.py:206 | the month-number flag marks exactly the cells of the shown month |
| MonthGrid.GridCellSlots | app/states/calendar_state.py:196-207 | a cell holds exactly the provider's slots of its day, sorted by start, as a permutation of them |
| Templates.RemoveFirst | app/states/calendar_state.py:151 | removing an absent value leaves the list as it is |
| Templates.RemoveFirstCounts | app/states/calendar_state.py:151 | removal takes one occurrence of the value out of the multiset |
| Templates.RemoveFirstAt | app/states/calendar_state.py:151 | removal deletes the first occurrence and keeps the order of the rest |
| Templates.RemoveFirstIncreasing | app/states/calendar_state.py:151 | removal keeps a strictly increasing list strictly increasing |
| Templates.InsertSorted | app/states/calendar_state.py:154 | insertion adds exactly the value |
| Templates.InsertSortedSorted | app/states/calendar_state.py:154 | insertion keeps a list sorted |
| Templates.SortInts | app/states/calendar_state.py:154 | the sort is a permutation |
| Templates.SortIntsSorted | app/states/calendar_state.py:154 | the sort's result is sorted |
| Templates.IncreasingUnique | app/states/calendar_state.py:150-154 | two strictly increasing lists with the same members are equal |
| Templates.ToggleCounts | app/states/calendar_state.py:149-154 | toggling takes one occurrence of a listed day out, or adds one of an unlisted day |
| Templates.ToggleMembership | app/states/calendar_state.py:149-154 | on a list without repetitions toggling flips the membership of that day only |
| Templates.ToggleStrictlyIncreasing | app/states/calendar_state.py:149-154 | toggling keeps the weekday list sorted without repetitions |
| Templates.ToggleTwice | app/states/calendar_state.py:149-154 | toggling a day twice restores the list |
| Templates.WeekdayRows | app/states/calendar_state.py:213-218 | seven rows, Monday first, with their labels |
| Templates.WeekdayRowsSelected | app/states/calendar_state.py:217 | a row is ticked exactly when its day is listed |
| Templates.ToggleFlipsOneRow | app/states/calendar_state.py:149-154 | toggling a day flips its row's tick and leaves the other rows |
| CalendarStates.CalendarState.constructor | app/states/calendar_state.py:31-46 | the field defaults, including the Monday-to-Friday 09:00-17:00 template and the current month's first |
| CalendarStates.CalendarState.OnLoad | app/states/calendar_state.py:49-50 | the shown month becomes the first of the current month |
| CalendarStates.CalendarState.GenerateTimeSlots | app/states/calendar_state.py:67-96 | the loop returns exactly the day's slots against the collection and advances the counter by their number |
| CalendarStates.CalendarState.WalkMonth | app/states/calendar_state.py:117-125 | the day walk returns exactly the month's slots from the month date on and advances the counter by their number |
| CalendarStates.CalendarState.WalkOneDay | app/states/calendar_state.py:120-124 | one day of the walk: the day's slots when its weekday is listed, none otherwise |
| CalendarStates.CalendarState.Regenerate | app/states/calendar_state.py:109-126 | the clear, the walk and the append leave exactly the regenerated collection and keep the invariant |
| CalendarStates.CalendarState.GenerateMonthlySlots | app/states/calendar_state.py:98-129 | beyond the horizon nothing changes, for any template; otherwise the collection is regenerated, the counter advanced and the template recorded, keeping the invariant |
| CalendarStates.CalendarState.UpdateAvailabilityTemplate | app/states/calendar_state.py:162-168 | the store becomes the recorded store |
| CalendarStates.CalendarState.ChangeMonth | app/states/calendar_state.py:131-134 | the shown month becomes the first of the month 31 × delta days away |
| CalendarStates.CalendarState.ToggleTemplateWeekday | app/states/calendar_state.py:148-154 | only the weekday list changes, to its toggle, and the invariant is kept |
| CalendarStates.CalendarState.GenerateSlotsFromTemplate | app/states/calendar_state.py:156-160 | regenerates the shown month for the selected provider with the edited template: the new collection, the counter advanced by the number added and the recorded template |
| CalendarStates.CalendarState.SetSelectedProviderId | app/states/calendar_state.py:170-177 | an accepted id is stored, a refused one leaves the selection |
| CalendarStates.CalendarState.SelectSlot | app/states/calendar_state.py:179-181 | the selection becomes the clicked slot, or none when the details are closed with `{}` |
| CalendarStates.CalendarState.CalendarGrid | app/states/calendar_state.py:187-211 | the loop builds exactly the grid |
| CalendarStates.CalendarState.TemplateWeekdays | app/states/calendar_state.py:213-218 | seven rows, row i ticked exactly when day i is listed |
| CalendarStates.ChangeMonthForward | app/states/calendar_state.py:131-134 | one step forward from a month's first shows the next month |
| CalendarStates.ChangeMonthBackward | app/states/calendar_state.py:131-134 | one step back reaches the previous month only when it has 31 days, and two months back otherwise |
| Auth.ParseRole | app/models.py:8-11 | `Role(v)` succeeds only on the enum's strings |
| Auth.ParseRoleName | app/models.py:8-11 | each role's string is read back as that role |
| Auth.RoleOf | app/auth.py:18-21 | `user_role` is None exactly without a truthy role entry, a role exactly when the entry is a role string, and fails otherwise |
| Auth.Dashboard | app/auth.py:61-66 | each dashboard lies in its role's area |
| Auth.DashboardNotPublic | app/auth.py:50-51 | no dashboard is a public page or a login or registration page |
| Auth.GuestGuard | app/auth.py:49-57 | a guest stays exactly on the public pages; from the admin and doctor areas they go to the staff login, from the patient area to the patient login, and elsewhere to `/` |
| Auth.MemberGuard | app/auth.py:58-72 | a signed-in user with a role stays exactly in their own area outside the login pages, and is otherwise sent to their own dashboard |
| Auth.GuardSettles | app/auth.py:49-72 | the guard does nothing on the page it redirects to |
| Auth.Refreshed | app/auth.py:23-37 | no token or an error status signs out; a record from the backend is stored with the token kept |
| Auth.CheckAuthSettles | app/auth.py:46-72 | following `check_auth`'s redirect, the next check keeps the session and does nothing |
| Auth.RejectedRefreshIsGuest | app/auth.py:23-57 | a rejected token is signed out, and a guest is guarded by the path alone |
| Auth.LoginNeedsFields | app/auth.py:75-78 | a login without username or password changes nothing and toasts |
| Auth.LoginRoleGate | app/auth.py:86-100 | a login redirects exactly when both fields are given, the backend grants it and the page admits the role, and then to that role's dashboard |
| Auth.LoginLandings | app/auth.py:91-100 | the staff page lands only on the admin or doctor dashboard, the patient page only on the patient dashboard |
| Auth.LoginThenGuard | app/auth.py:86-100 | after a redirecting login with a token the user is signed in and the guard lets them stay on the page they were sent to |
| Auth.RefusedRoleStaysSignedIn | app/auth.py:88-94 | a login refused for its role still leaves the user signed in with that role |
| Auth.RegisterOutcome | app/auth.py:116-132 | missing fields change nothing; success signs in and lands on the patient dashboard; a refusal shows the backend's detail or the default message |
| Auth.AuthState.constructor | app/auth.py:10-12 | no token, no record, not loading |
| Auth.AuthState.Logout | app/auth.py:40-43 | token and record are cleared, the user is not signed in, and the event redirects to `/` |
| Auth.AuthState.UpdateUserInfoFromToken | app/auth.py:23-37 | the session becomes the refreshed session |
| Auth.AuthState.CheckAuth | app/auth.py:46-72 | the session is refreshed only when a token has no record, and the result is the guard's decision on the new session |
| Auth.AuthState.Login | app/auth.py:74-105 | the session and the result follow the login functions, and loading is off after any request |
| Auth.AuthState.StaffLogin | app/auth.py:107-109 | the login with the staff roles |
| Auth.AuthState.PatientLogin | app/auth.py:111-113 | the login with the patient role |
| Auth.AuthState.PatientRegister | app/auth.py:115-134 | the session and the result follow the registration functions, and loading is off after any request |

## Left out

- `SlotEngine.ValidateMonthLimit`: the time of day. `datetime.now().replace(day=1)` keeps the current time, in the limit and in `selected_month`, and the horizon compares date-times. The model compares dates only, so a first of month equal to the limit's date is refused, while the code accepts it when its time of day is earlier than the time of the check.
- `Dates.AddDays`, `Dates.NextDay`, `SlotEngine.ValidateMonthLimit`, `CalendarStates.CalendarState.ChangeMonth`, `MonthGrid.Grid` and `CalendarStates.CalendarState.CalendarGrid`: `datetime`'s year range (1 to 9999) and its `OverflowError` are not modelled; years are unbounded. For example the grid of January of year 1 starts in year 0 here, where the code raises.
- `SlotEngine.DaySlots`: when a slot fits, `_generate_time_slots` runs for ever with a slot length of 0, and with a negative length runs the cursor backwards until `datetime` raises `OverflowError`. The requires `DayLoopTerminates` excludes both, so neither the endless loop nor that exception is modelled.
- `SlotEngine.DaySlots`, `CalendarStates.CalendarState.GenerateTimeSlots` and `CalendarStates.CalendarState.GenerateMonthlySlots`: a very large positive slot length is not modelled as failing. From about 1.44e12 minutes `timedelta(minutes=...)` raises `OverflowError`, and the `except (ValueError, TypeError)` does not catch it. From the length that carries `current_time + duration` past year 9999 (about 4.2e9 minutes from today), the `while` test raises `OverflowError` outside the `try`. Either way the exception leaves `generate_monthly_slots` after the month was cleared, before the `extend` and the template record. The model, with unbounded dates, generates no slot for such a length, appends nothing and records the template.
- `CalendarStates.CalendarState.GenerateMonthlySlots`: a month within the horizon must come with a template for which `GenerationTerminates` holds. A month beyond it is accepted with any template, as the source refuses it before any day loop. Still excluded is a month date after which no listed weekday remains in its month, given with a template whose day loop would not end: the source finishes that call, clearing the month and generating nothing.
- `Parsing.ParseInt` and `Parsing.ClockField`: only ASCII digits. Python's `int()` and the `\d` of `strptime`'s regular expressions also accept other Unicode decimal digits. The whitespace `int()` drops is modelled in full, including the non-ASCII blanks.
- `Parsing.ParseInt`, `Parsing.ParseIntToString` and `CalendarStates.CalendarState.SetSelectedProviderId`: the limit on decimal conversions (4300 digits by default, changed by `sys.set_int_max_str_digits`) is not modelled. Past it `int()` and `str()` raise `ValueError`, so the source keeps the selected provider where the model stores the id, and the round trip holds here for every integer.
- `int(template["slot_duration"])` on a non-integer value, and `TypeError` on a missing key: the template's length is an `int` here.
- The UI fields `is_loading`, `error_message` and `show_availability_modal` of `CalendarState`, and the events that only flip the modal: rendering state.
- `set_template_value`: an untyped key and value written into the template dict. The template is a typed value here.
- The strftime formatting of `selected_month_str`, `selected_slot_date_str`, `selected_slot_time_str`, the grid's `date_str`/`date_num` and the slots' ISO strings. Dates and times are values. Comparing ISO strings of years 1 to 9999 is the chronological order `DateTimeBefore`, and the grid's `startswith` on the date is date equality.
- `SlotEngine.RecordTemplate`: the source stores the template dict itself, so later edits alias the stored template. The model stores a value.
- Booking: no code in the core sets `is_booked`; the flag is carried and never changed.
- `CalendarStates.CalendarState.WalkMonth`, `WalkOneDay` and `Regenerate`: the body of `generate_monthly_slots`, split into three methods. Their sequence is the source's body.
- The `yield` in `generate_monthly_slots` (an intermediate UI update) and Reflex's event scheduling: no concurrency is modelled.
- HTTP in `AuthState`: the backend's replies are parameters. A network failure other than an HTTP status error, and a reply missing `access_token` or `user`, are not modelled.
- `Auth.RegisterOutcome` and `Auth.AuthState.PatientRegister`: a refusal's `detail` is a string or absent. The source passes whatever JSON value `detail` holds to the toast: the list of a validation reply (status 422) or `null`, which shows `None` rather than the default message. Those, and a refusal whose body is not JSON, are not modelled.
- `Auth.AuthState.Login`: logging is not modelled.
- Form values other than strings in `form_data`: the form is a map of strings.
- `app/backend/auth.py` (token signing and password hashing): foreign calls, not part of this model.

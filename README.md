# ShiftGenie: a verified model of the rules behind the screens

ShiftGenie is an Android app for shift workers. A user signs up or signs in, registers workplaces
with an hourly wage, records shifts (a From date-time and a To time at one workplace), browses a
monthly calendar with the shifts and totals of a day or a month, and lists all users with their
shift counts and earnings. The app is mostly glue between Android views and the Firebase
authentication and database services. This project models the rules inside that glue as Dafny
values, functions and classes, and proves what those rules guarantee.

Modules, one per screen or record type, plus three support modules:

- `Wrappers`: `Option`, the `Fetch` outcome of a database callback (`Fetched` or `Crashed`),
  and `Somes`, the non-null children of a snapshot.
- `Text`: Java's `String.trim`, the first-empty-field scan, decimal digits and zero padding, and
  the subset of `Double.parseDouble` the app relies on.
- `Dates`: day numbers (day 0 = 1970-01-01), `Calendar.DAY_OF_WEEK`, the proleptic Gregorian
  calendar in both directions, and the `yyyy-MM`, `yyyy-MM-dd` and `yyyy-MM-dd HH:mm` texts.
- `Backend`: the signed-in account, a record written with `setValue`, and the user-profile record.
- `ShiftBean`, `UserBean`: the `Shift` and `User` beans as classes with setters.
- `MonthlyReport`: month stepping, the 42-day grid, the day and month filters and totals, and the
  two adapters.
- `ShiftCreation`: the spinner, the wage callback, the pickers, the Create check, the duplicate
  scan and the saved shift.
- `UsersDirectory`: the user list rebuild and the per-user count and earnings.
- `Signup`, `Workplace`, `Login`: the three forms, their checks, outcomes and written records.

A database snapshot is an input sequence. A `None` element is a child that deserialises to null.
A write is an output value. Money and hours are exact `real`s. An exception that the code does not
catch ends in an explicit crash outcome. Examples are a null start in the report filters, a
malformed stamp in the month loop, a wage text that is not a number, and a From text that
`split(" ")` turns into an empty array.

The Create button's order check is looser than its own message. The toast it shows, "'To' time
should be after 'From' time." (`ShiftFragment.java:254`), asks for an end after the start, but the
test above it (`ShiftFragment.java:253`) refuses only a From calendar strictly after the To
calendar, so a shift whose start and end are equal is accepted. The model follows the test.

## Model

| member | source | states |
|---|---|---|
| ShiftBean.Shift.constructor | app/src/main/java/com/example/shiftgenie/Shift.java:18-20 | a Shift read from the database starts with every string null and earnings 0.0 |
| ShiftBean.Shift.Init | app/src/main/java/com/example/shiftgenie/Shift.java:32-39 | the six-argument constructor stores each argument in its own field |
| ShiftBean.Shift.SetShiftId | app/src/main/java/com/example/shiftgenie/Shift.java:55-57 | the getter then returns the value set, and no other field changes |
| ShiftBean.Shift.SetFromDateTime | app/src/main/java/com/example/shiftgenie/Shift.java:73-75 | the getter then returns the value set, and no other field changes |
| ShiftBean.Shift.SetToDateTime | app/src/main/java/com/example/shiftgenie/Shift.java:91-93 | the getter then returns the value set, and no other field changes |
| ShiftBean.Shift.SetWorkplaceName | app/src/main/java/com/example/shiftgenie/Shift.java:109-111 | the getter then returns the value set, and no other field changes |
| ShiftBean.Shift.SetUserEmail | app/src/main/java/com/example/shiftgenie/Shift.java:127-129 | the getter then returns the value set, and no other field changes |
| ShiftBean.Shift.SetTotalEarnings | app/src/main/java/com/example/shiftgenie/Shift.java:145-147 | the getter then returns the value set, and no other field changes |
| ShiftBean.SumEarningsSnoc | app/src/main/java/com/example/shiftgenie/MonthlyReportFragment.java:215 | one more shift adds its stored earnings to the sum |
| ShiftBean.SumEarningsAppend | app/src/main/java/com/example/shiftgenie/MonthlyReportFragment.java:215 | the earnings sum of two lists one after the other is the sum of their sums |
| UserBean.LongToInt | app/src/main/java/com/example/shiftgenie/UsersFragment.java:128 | the `(int)` cast of the long count agrees with it modulo 2^32, and is the count itself when it fits |
| UserBean.User.constructor | app/src/main/java/com/example/shiftgenie/User.java:21-23 | a new User has every string null, count 0 and earnings 0.0 |
| UserBean.User.SetId | app/src/main/java/com/example/shiftgenie/User.java:39-41 | getId then returns the id set, and no other field changes |
| UserBean.User.SetUsername | app/src/main/java/com/example/shiftgenie/User.java:57-59 | the getter then returns the value set, and no other field changes |
| UserBean.User.SetProfileImage | app/src/main/java/com/example/shiftgenie/User.java:75-77 | the getter then returns the value set, and no other field changes |
| UserBean.User.SetAge | app/src/main/java/com/example/shiftgenie/User.java:93-95 | the getter then returns the value set, and no other field changes |
| UserBean.User.SetPhoneNumber | app/src/main/java/com/example/shiftgenie/User.java:111-113 | the getter then returns the value set, and no other field changes |
| UserBean.User.SetEmail | app/src/main/java/com/example/shiftgenie/User.java:129-131 | the getter then returns the value set, and no other field changes |
| UserBean.User.SetShiftsCount | app/src/main/java/com/example/shiftgenie/User.java:147-149 | getShiftsCount then returns the count set, and no other field changes |
| UserBean.User.SetTotalEarnings | app/src/main/java/com/example/shiftgenie/User.java:165-167 | getTotalEarnings then returns the earnings set, and no other field changes |
| Text.Trim | app/src/main/java/com/example/shiftgenie/SignupFragment.java:101-105 | trimming gives the empty text exactly when the input is blank (empty, or only characters up to U+0020) |
| Text.TrimIdempotent | app/src/main/java/com/example/shiftgenie/SignupFragment.java:101-105 | trimming a trimmed text changes nothing |
| Text.FirstEmpty | app/src/main/java/com/example/shiftgenie/SignupFragment.java:108-127 | the index found holds an empty field and every earlier field is non-empty, or no field is empty |
| Text.ParseDecimal | app/src/main/java/com/example/shiftgenie/ShiftFragment.java:184 | blank text is not a number; a written decimal parses back to that number (with ParseDecimalOfDecimal) |
| Text.ParseDecimalSuffix | app/src/main/java/com/example/shiftgenie/ShiftFragment.java:184 | a `d`, `D`, `f` or `F` after a number leaves its value unchanged, and the suffix alone is not a number |
| Text.ParseDecimalOfDigits | app/src/main/java/com/example/shiftgenie/ShiftFragment.java:184 | a non-empty text of digits parses to its decimal value |
| Dates.DayOfWeek | app/src/main/java/com/example/shiftgenie/MonthlyReportFragment.java:367 | DAY_OF_WEEK is between 1 (Sunday) and 7 |
| Dates.NextDayOfWeek | app/src/main/java/com/example/shiftgenie/MonthlyReportFragment.java:373 | the next day has the next weekday, Saturday wrapping round to Sunday |
| Dates.WeekStartIsSunday | app/src/main/java/com/example/shiftgenie/MonthlyReportFragment.java:366-368 | moving back DAY_OF_WEEK - 1 days from any day lands on a Sunday |
| Dates.DayOfWeekOffset | app/src/main/java/com/example/shiftgenie/MonthlyReportFragment.java:371-374 | k days after a Sunday is weekday k mod 7 + 1 |
| Dates.MonthLength | app/src/main/java/com/example/shiftgenie/MonthlyReportFragment.java:365-368 | a Gregorian month has 28 to 31 days |
| Dates.DaysWithinMonth | app/src/main/java/com/example/shiftgenie/MonthlyReportFragment.java:365-373 | day d of a month is d - 1 days after the 1st |
| Dates.EpochIsDayZero | app/src/main/java/com/example/shiftgenie/ShiftFragment.java:345-346 | 1970-01-01 is day 0, the origin of getTime |
| Dates.YearOf | app/src/main/java/com/example/shiftgenie/MonthlyReportFragment.java:158-159 | every day number lies in the year found for it |
| Dates.YearUnique | app/src/main/java/com/example/shiftgenie/MonthlyReportFragment.java:158-159 | a day number lies in one year only |
| Dates.MonthInYear | app/src/main/java/com/example/shiftgenie/MonthlyReportFragment.java:158-159 | each month lies inside its year |
| Dates.CivilFromDays | app/src/main/java/com/example/shiftgenie/MonthlyReportFragment.java:158-159 | the date of a day number is a valid calendar date that maps back to the same day number |
| Dates.CivilRoundTrip | app/src/main/java/com/example/shiftgenie/MonthlyReportFragment.java:158-159 | every valid calendar date is the date of its own day number |
| Dates.DayText | app/src/main/java/com/example/shiftgenie/MonthlyReportFragment.java:158-199 | the `yyyy-MM-dd` text of a day starts with the `yyyy-MM` text of its month |
| Dates.ParseStamp | app/src/main/java/com/example/shiftgenie/ShiftFragment.java:345-346 | a text parses exactly when it has the `yyyy-MM-dd HH:mm` layout |
| Dates.StampRoundTrip | app/src/main/java/com/example/shiftgenie/ShiftFragment.java:214 | a picked date-time formats to a stamp that parses back to the same minute, with the date as its first ten characters |
| Dates.StampMinutesClock | app/src/main/java/com/example/shiftgenie/MonthlyReportFragment.java:250-255 | the clock time of a stamp adds its hours and minutes to the instant of midnight of its day |
| Dates.SameDateDistance | app/src/main/java/com/example/shiftgenie/MonthlyReportFragment.java:255 | two stamps on one date are apart by the difference of their clock times |
| MonthlyReport.NextMonth | app/src/main/java/com/example/shiftgenie/MonthlyReportFragment.java:114-117 | the next month is one month later, December rolling over into January |
| MonthlyReport.PrevMonth | app/src/main/java/com/example/shiftgenie/MonthlyReportFragment.java:109-112 | the previous month is one month earlier, January rolling back into December |
| MonthlyReport.MonthIndexInjective | app/src/main/java/com/example/shiftgenie/MonthlyReportFragment.java:109-117 | two valid months one step apart from the same month are equal |
| MonthlyReport.MonthStepsRoundTrip | app/src/main/java/com/example/shiftgenie/MonthlyReportFragment.java:109-117 | next after previous, and previous after next, return to the same month |
| MonthlyReport.Grid | app/src/main/java/com/example/shiftgenie/MonthlyReportFragment.java:371-374 | the grid has exactly 42 dates |
| MonthlyReport.GridWeeks | app/src/main/java/com/example/shiftgenie/MonthlyReportFragment.java:366-374 | the grid starts on a Sunday, column i % 7 is weekday i % 7 + 1, and neighbouring cells are consecutive days |
| MonthlyReport.GridCoversMonth | app/src/main/java/com/example/shiftgenie/MonthlyReportFragment.java:366-373 | the 1st sits at index DAY_OF_WEEK - 1, and every day of the month is in the grid at its offset from there |
| MonthlyReport.ClickedCellDate | app/src/main/java/com/example/shiftgenie/MonthlyReportFragment.java:158-159 | the cell of day d formats to that date, and that text starts with the month's report prefix |
| MonthlyReport.CalendarAdapter.constructor | app/src/main/java/com/example/shiftgenie/MonthlyReportFragment.java:346-356 | a new adapter holds the grid of its month |
| MonthlyReport.CalendarAdapter.UpdateCalendar | app/src/main/java/com/example/shiftgenie/MonthlyReportFragment.java:363-377 | the old dates are discarded, and the list becomes the 42-day grid of the month |
| MonthlyReport.Kept | app/src/main/java/com/example/shiftgenie/MonthlyReportFragment.java:167-173 | a filter keeps no more shifts than the snapshot has |
| MonthlyReport.KeptAppend | app/src/main/java/com/example/shiftgenie/MonthlyReportFragment.java:167-173 | filtering keeps snapshot order: a filtered concatenation is the concatenation of the filtered parts |
| MonthlyReport.KeptMembers | app/src/main/java/com/example/shiftgenie/MonthlyReportFragment.java:170 | a shift is kept exactly when it is a non-null child whose start begins with the prefix |
| MonthlyReport.ShiftHours | app/src/main/java/com/example/shiftgenie/MonthlyReportFragment.java:246-260 | the hours exist exactly when both stamps are present and parse, and then are the millisecond difference over 3,600,000 |
| MonthlyReport.EqualStampsNoHours | app/src/main/java/com/example/shiftgenie/MonthlyReportFragment.java:246-260 | a shift with equal start and end has 0 hours |
| MonthlyReport.SameDateHours | app/src/main/java/com/example/shiftgenie/MonthlyReportFragment.java:246-260 | on one date the hours are the clock difference in hours, negative exactly when the end's clock is before the start's |
| MonthlyReport.HoursTotalSnoc | app/src/main/java/com/example/shiftgenie/MonthlyReportFragment.java:216-217 | adding a shift with hours adds its hours to the total |
| MonthlyReport.ScanDay | app/src/main/java/com/example/shiftgenie/MonthlyReportFragment.java:167-175 | the day loop throws exactly when some non-null child has a null start, and otherwise keeps exactly the filtered shifts in snapshot order |
| MonthlyReport.MonthChild | app/src/main/java/com/example/shiftgenie/MonthlyReportFragment.java:210-219 | one child of the month query throws exactly when the month loop would throw on it; otherwise it adds the shift when it is kept, with its earnings and hours, and leaves the totals alone when it is not |
| MonthlyReport.KeptSnoc | app/src/main/java/com/example/shiftgenie/MonthlyReportFragment.java:210-213 | one more child adds its shift to the kept list exactly when the filter keeps it |
| MonthlyReport.ScanMonth | app/src/main/java/com/example/shiftgenie/MonthlyReportFragment.java:207-222 | the month loop throws exactly on a null start or on a kept shift without hours; otherwise it keeps the filtered shifts, and its earnings are their stored sum and its hours their hours' sum (0 and 0 for no shift) |
| MonthlyReport.DayInMonth | app/src/main/java/com/example/shiftgenie/MonthlyReportFragment.java:158-215 | a shift in a day's report is in that month's report, and a child the day loop throws on also makes the month loop throw |
| MonthlyReport.ShiftsAdapter.constructor | app/src/main/java/com/example/shiftgenie/MonthlyReportFragment.java:269-271 | a new adapter holds the given list |
| MonthlyReport.ShiftsAdapter.UpdateShifts | app/src/main/java/com/example/shiftgenie/MonthlyReportFragment.java:278-282 | the list becomes the new list element for element, and the item count is its length |
| MonthlyReport.MonthlyReportScreen.constructor | app/src/main/java/com/example/shiftgenie/MonthlyReportFragment.java:85-106 | the screen opens on the current month with its grid and an empty list |
| MonthlyReport.MonthlyReportScreen.OnPrevMonth | app/src/main/java/com/example/shiftgenie/MonthlyReportFragment.java:109-112 | the month steps back by one and the grid is rebuilt for it |
| MonthlyReport.MonthlyReportScreen.OnNextMonth | app/src/main/java/com/example/shiftgenie/MonthlyReportFragment.java:114-117 | the month steps forward by one and the grid is rebuilt for it |
| MonthlyReport.MonthlyReportScreen.OnDateClick | app/src/main/java/com/example/shiftgenie/MonthlyReportFragment.java:154-187 | signed out gives the toast; signed in, it throws exactly when some child has a null start, and otherwise the list shows exactly that date's shifts; nothing changes except when shown |
| MonthlyReport.MonthlyReportScreen.OnMonthlyReport | app/src/main/java/com/example/shiftgenie/MonthlyReportFragment.java:120-238 | signed out gives the toast; signed in, it throws exactly when the loop does, and otherwise the list and totals show the current month's shifts, earnings and hours; nothing changes except when shown |
| ShiftCreation.SplitHead | app/src/main/java/com/example/shiftgenie/ShiftFragment.java:250-251 | `split(" ")[0]` throws exactly on a non-empty text of spaces; otherwise it is the prefix before the first space |
| ShiftCreation.SplitHeadOfStamp | app/src/main/java/com/example/shiftgenie/ShiftFragment.java:250-251 | the head of a stamp is its `yyyy-MM-dd` date |
| ShiftCreation.TotalHours | app/src/main/java/com/example/shiftgenie/ShiftFragment.java:340-352 | 0 when the start does not parse; minus the start's millis over 3,600,000 when only the end does not; otherwise non-negative exactly when the end is not before the start |
| ShiftCreation.ShiftToSave | app/src/main/java/com/example/shiftgenie/ShiftFragment.java:311-322 | nothing is saved without a push key; otherwise the shift has that id, the given texts and workplace, the owner's email ("" when signed out) and earnings = hours × wage |
| ShiftCreation.SavedShiftReportHours | app/src/main/java/com/example/shiftgenie/ShiftFragment.java:317-318 | the monthly report recomputes the hours whose product with the wage was saved |
| ShiftCreation.ReportHoursAgree | app/src/main/java/com/example/shiftgenie/ShiftFragment.java:340-352 | the report's hours of two stamps equal the form's hours of them |
| ShiftCreation.PickedShiftHours | app/src/main/java/com/example/shiftgenie/ShiftFragment.java:250-251 | a picked From gives the date as its head, and the hours of From and the built end are the clock difference |
| ShiftCreation.DateTextLength | app/src/main/java/com/example/shiftgenie/ShiftFragment.java:78 | the date part of a picked stamp is ten characters long |
| ShiftCreation.CreateShiftCheckAsWritten | app/src/main/java/com/example/shiftgenie/ShiftFragment.java:241-258 | createShift as written: missing fields exactly when a text is empty or nothing is selected; the split throws on a From of spaces; refused exactly when the From calendar is strictly after the To calendar; the end is the From date, a space and the To text |
| ShiftCreation.CreateShiftCheck | app/src/main/java/com/example/shiftgenie/ShiftFragment.java:241-258 | the same check, comparing the texts that are saved: whatever goes ahead has both stamps parsing and the start not after the end |
| ShiftCreation.CheckedHoursNonNegative | app/src/main/java/com/example/shiftgenie/ShiftFragment.java:253-256 | a shift the corrected check lets through never has negative hours |
| ShiftCreation.ChecksAgreeOnFreshTo | app/src/main/java/com/example/shiftgenie/ShiftFragment.java:229-256 | while the To text belongs to the current From pick, the corrected and the as-written checks decide alike |
| ShiftCreation.CheckForOverlappingShifts | app/src/main/java/com/example/shiftgenie/ShiftFragment.java:276-294 | the scan finds a duplicate exactly when some existing shift has both stamps present and string-equal to the new ones |
| ShiftCreation.OverlapIsNotDuplicate | app/src/main/java/com/example/shiftgenie/ShiftFragment.java:276-294 | for any existing shift, a new one that starts after it starts or ends before it ends is not its duplicate, however much they overlap |
| ShiftCreation.ContainedShiftOnAnyDay | app/src/main/java/com/example/shiftgenie/ShiftFragment.java:276-294 | on every day, 10:00 to 12:00 lies strictly inside 9:00 to 17:00 and is not a duplicate of it |
| ShiftCreation.Outcomes | app/src/main/java/com/example/shiftgenie/ShiftFragment.java:181-186 | the wage callback has one outcome per record |
| ShiftCreation.ReadWage | app/src/main/java/com/example/shiftgenie/ShiftFragment.java:181-186 | one wage record: a null text keeps the wage, a number replaces it, and any other text throws |
| ShiftCreation.ReplayStep | app/src/main/java/com/example/shiftgenie/ShiftFragment.java:181-186 | replaying one more record applies that record to the wage replayed so far |
| ShiftCreation.ReplayFails | app/src/main/java/com/example/shiftgenie/ShiftFragment.java:181-186 | the wage replay fails exactly when some outcome is a failed parse |
| ShiftCreation.ReplayStaysFailed | app/src/main/java/com/example/shiftgenie/ShiftFragment.java:181-186 | once the replay has failed on a prefix it has failed for good |
| ShiftCreation.ReplayNoWage | app/src/main/java/com/example/shiftgenie/ShiftFragment.java:181-186 | without a wage the replay ends where it started |
| ShiftCreation.ReplayLast | app/src/main/java/com/example/shiftgenie/ShiftFragment.java:181-186 | a replay that does not fail ends with the last parsed wage |
| ShiftCreation.WageAfterFails | app/src/main/java/com/example/shiftgenie/ShiftFragment.java:180-187 | the wage callback throws exactly when some non-null wage text is not a number |
| ShiftCreation.WageAfterNoWage | app/src/main/java/com/example/shiftgenie/ShiftFragment.java:180-187 | without a non-null wage text the wage is unchanged |
| ShiftCreation.WageAfterLast | app/src/main/java/com/example/shiftgenie/ShiftFragment.java:180-187 | otherwise the wage is the last non-null wage text, parsed |
| ShiftCreation.ShiftForm.constructor | app/src/main/java/com/example/shiftgenie/ShiftFragment.java:62-104 | the form opens with an empty list, no workplace, wage 0 and both calendars at the current time |
| ShiftCreation.ShiftForm.LoadWorkplaces | app/src/main/java/com/example/shiftgenie/ShiftFragment.java:127-168 | signed out or no records gives a toast; otherwise the non-null names are appended in snapshot order; the rest of the form is unchanged |
| ShiftCreation.ShiftForm.OnItemSelected | app/src/main/java/com/example/shiftgenie/ShiftFragment.java:86-94 | an index in range selects that workplace and asks for its wage; any other index clears the selection and sets the wage to 0 |
| ShiftCreation.ShiftForm.OnNothingSelected | app/src/main/java/com/example/shiftgenie/ShiftFragment.java:97-100 | the selection is cleared and the wage set to 0 |
| ShiftCreation.ShiftForm.OnHourlyWage | app/src/main/java/com/example/shiftgenie/ShiftFragment.java:179-188 | the callback throws exactly when the replay fails, and otherwise leaves the wage the replay gives |
| ShiftCreation.ShiftForm.PickFromDate | app/src/main/java/com/example/shiftgenie/ShiftFragment.java:205-208 | the date listener alone, as when the time dialog is then cancelled: the From calendar moves to the picked date and keeps its time of day; the texts and the To calendar stay as they were |
| ShiftCreation.ShiftForm.PickFrom | app/src/main/java/com/example/shiftgenie/ShiftFragment.java:203-222 | a completed pick: the From text and calendar take the picked date-time, the To calendar is set to it, and the To text is left as it was |
| ShiftCreation.PickedInstant | app/src/main/java/com/example/shiftgenie/ShiftFragment.java:211-212 | setting hour and minute on a calendar at the picked date gives the instant of that date and time |
| ShiftCreation.ShiftForm.ClickTo | app/src/main/java/com/example/shiftgenie/ShiftFragment.java:110-236 | refused until a From is picked; otherwise the To calendar keeps its date and takes the time, and the To text shows `HH:mm` |
| ShiftCreation.ShiftForm.CreateShift | app/src/main/java/com/example/shiftgenie/ShiftFragment.java:241-331 | the Create button as written: the refusals of CreateShiftCheckAsWritten, on the From and To calendars, give their toasts; a duplicate gives "Shift already Occupied"; otherwise exactly the shift of ShiftToSave is written, and only a successful write clears both texts |
| ShiftCreation.ShiftForm.CreateShiftCorrected | app/src/main/java/com/example/shiftgenie/ShiftFragment.java:241-331 | the same button with the corrected check of CreateShiftCheck; a shift it writes never has negative hours |
| ShiftCreation.ShiftForm.Submit | app/src/main/java/com/example/shiftgenie/ShiftFragment.java:263-331 | what follows a check: its refusal, or the duplicate scan and then the write of the shift to save |
| ShiftCreation.ShiftForm.ClearFields | app/src/main/java/com/example/shiftgenie/ShiftFragment.java:357-361 | both texts are emptied and nothing else changes |
| ShiftCreation.StaleToAccepted | app/src/main/java/com/example/shiftgenie/ShiftFragment.java:216-253 | after picking From, To, then From again later, the Create button saves exactly the shift from 13:00 to 12:00, of -1 hours and earnings of minus the wage |
| ShiftCreation.StaleShiftSaved | app/src/main/java/com/example/shiftgenie/ShiftFragment.java:311-322 | the shift those picks save, with a wage of 15, runs from 13:00 to 12:00 for -1 hours and -15.0 earnings |
| ShiftCreation.StaleToRefused | app/src/main/java/com/example/shiftgenie/ShiftFragment.java:216-253 | the same picks on the corrected button are refused |
| ShiftCreation.PickTwice | app/src/main/java/com/example/shiftgenie/ShiftFragment.java:86-236 | the form state after those picks: the new From text, the old To text, both calendars at the new From and the workplace's wage |
| ShiftCreation.CancelledPickRefused | app/src/main/java/com/example/shiftgenie/ShiftFragment.java:205-253 | after From 10:00 and To 12:00, a later date picked for From with its time dialog cancelled: the texts still show a two-hour shift, and the Create button refuses it |
| ShiftCreation.PickThenCancel | app/src/main/java/com/example/shiftgenie/ShiftFragment.java:86-236 | the form after those picks: the old texts, the From calendar on the later date at 10:00 and the To calendar at 12:00 on the first date |
| ShiftCreation.StaleToChecks | app/src/main/java/com/example/shiftgenie/ShiftFragment.java:250-256 | on any date, a To time before the From time with equal calendars passes as written with negative hours and is refused by the corrected check |
| UsersDirectory.ProfileReadBack | app/src/main/java/com/example/shiftgenie/UsersFragment.java:86-88 | a profile written at sign-up or sign-in is listed with the written values, its uid as id, no image and zero totals |
| UsersDirectory.Listed | app/src/main/java/com/example/shiftgenie/UsersFragment.java:84-94 | the list has no more users than the snapshot has children |
| UsersDirectory.ListedMembers | app/src/main/java/com/example/shiftgenie/UsersFragment.java:84-94 | every listed user is a non-null child with its key as id, and every non-null child is listed |
| UsersDirectory.ListedAppend | app/src/main/java/com/example/shiftgenie/UsersFragment.java:84-94 | the list keeps snapshot order |
| UsersDirectory.ListedOfNulls | app/src/main/java/com/example/shiftgenie/UsersFragment.java:87 | children that deserialise to null list nobody |
| UsersDirectory.ReadUser | app/src/main/java/com/example/shiftgenie/UsersFragment.java:86 | getValue gives a new User holding the stored fields |
| UsersDirectory.ReadChild | app/src/main/java/com/example/shiftgenie/UsersFragment.java:86-88 | a non-null child gives a new User with its stored fields and its key as id |
| UsersDirectory.CountShifts | app/src/main/java/com/example/shiftgenie/UsersFragment.java:119-126 | the count is the number of children, null ones included, and the total is the earnings sum of the non-null ones |
| UsersDirectory.NullChildAddsNothing | app/src/main/java/com/example/shiftgenie/UsersFragment.java:119-126 | a null child adds one to the count and nothing to the earnings |
| UsersDirectory.EarningsSplit | app/src/main/java/com/example/shiftgenie/UsersFragment.java:120-126 | the earnings of an answer split in two are the sum of the parts' earnings |
| UsersDirectory.EarningsNonNegative | app/src/main/java/com/example/shiftgenie/UsersFragment.java:120-126 | shifts with non-negative earnings sum to a non-negative total |
| UsersDirectory.UsersScreen.constructor | app/src/main/java/com/example/shiftgenie/UsersFragment.java:47-69 | the screen starts with an empty list |
| UsersDirectory.UsersScreen.FetchUsers | app/src/main/java/com/example/shiftgenie/UsersFragment.java:80-97 | the list is rebuilt as the non-null children in snapshot order, each a new User with its key as id, and one count query is issued per listed user, on its email |
| UsersDirectory.UsersScreen.OnShiftsCounted | app/src/main/java/com/example/shiftgenie/UsersFragment.java:115-129 | only that user's count (cast to int) and earnings change; no other listed user changes |
| Backend.PutUserDetails | app/src/main/java/com/example/shiftgenie/SignupFragment.java:191-195 | the profile record has exactly the keys username, email, age and phoneNumber, with the given values |
| Signup.CheckTrimmed | app/src/main/java/com/example/shiftgenie/SignupFragment.java:108-127 | registration goes ahead exactly when no trimmed input is empty, with those values |
| Signup.MissingIsFirstEmpty | app/src/main/java/com/example/shiftgenie/SignupFragment.java:108-127 | a refusal names the first empty input in the order username, email, password, age, phone |
| Signup.ValidateBlank | app/src/main/java/com/example/shiftgenie/SignupFragment.java:101-127 | registration goes ahead exactly when no raw input is blank |
| Signup.ValidateOfTrimmed | app/src/main/java/com/example/shiftgenie/SignupFragment.java:101-105 | every input is trimmed before any check, so trimmed inputs are decided alike |
| Signup.SaveUserDetails | app/src/main/java/com/example/shiftgenie/SignupFragment.java:179-198 | nothing is written when detached or signed out; otherwise exactly the four profile keys go to Users/uid, never the password |
| Signup.Complete | app/src/main/java/com/example/shiftgenie/SignupFragment.java:133-166 | a refusal is never attempted; an attempt succeeds exactly when the service succeeds; a collision gives "Email already exists." and any other failure "Authentication failed." |
| Signup.SignupForm.constructor | app/src/main/java/com/example/shiftgenie/SignupFragment.java:99-105 | the fields hold what was typed |
| Signup.SignupForm.RegisterWithEmailPassword | app/src/main/java/com/example/shiftgenie/SignupFragment.java:99-169 | the validation of the trimmed fields decides the toast or the attempt with the trimmed credentials; only success clears the five fields, and the profile written holds the trimmed values |
| Signup.SignupForm.ClearFields | app/src/main/java/com/example/shiftgenie/SignupFragment.java:140-144 | all five fields are empty |
| Workplace.TrimAll | app/src/main/java/com/example/shiftgenie/WorkplaceFragment.java:82-89 | each of the inputs is trimmed |
| Workplace.AllFilledIsNoFirstEmpty | app/src/main/java/com/example/shiftgenie/WorkplaceFragment.java:92-94 | the single boolean check agrees with a first-empty-field scan finding none |
| Workplace.AllFilledOfTrimmed | app/src/main/java/com/example/shiftgenie/WorkplaceFragment.java:82-94 | the form is complete exactly when no raw input is blank |
| Workplace.PutWorkplaceData | app/src/main/java/com/example/shiftgenie/WorkplaceFragment.java:109-118 | the record has exactly nine keys: the eight inputs as strings and userEmail |
| Workplace.SavedWageIsRead | app/src/main/java/com/example/shiftgenie/WorkplaceFragment.java:111 | a whole-number wage saved as its text is read back by the shift screen as that number |
| Workplace.WorkplaceForm.Texts | app/src/main/java/com/example/shiftgenie/WorkplaceFragment.java:82-89 | the form has eight inputs |
| Workplace.WorkplaceForm.constructor | app/src/main/java/com/example/shiftgenie/WorkplaceFragment.java:82-89 | the fields hold what was typed |
| Workplace.WorkplaceForm.SaveWorkplaceData | app/src/main/java/com/example/shiftgenie/WorkplaceFragment.java:80-132 | nothing is written unless all eight trimmed inputs are filled and somebody is signed in; the write goes to Workplace/id with the trimmed inputs and the account's email; only a successful write clears the form |
| Workplace.WorkplaceForm.ClearFields | app/src/main/java/com/example/shiftgenie/WorkplaceFragment.java:137-146 | all eight inputs are empty |
| Login.CheckTrimmed | app/src/main/java/com/example/shiftgenie/LoginFragment.java:381-390 | an empty email sets the email error; the password error only with a non-empty email; sign-in exactly when both are non-empty, with those values |
| Login.SignInIffNotBlank | app/src/main/java/com/example/shiftgenie/LoginFragment.java:377-396 | sign-in is attempted exactly when neither raw input is blank |
| Login.PasswordIgnoredWithoutEmail | app/src/main/java/com/example/shiftgenie/LoginFragment.java:381-384 | with a blank email the password does not matter |
| Login.CheckLoginOfTrimmed | app/src/main/java/com/example/shiftgenie/LoginFragment.java:377-378 | both inputs are trimmed before the check, so trimmed inputs are decided alike |
| Login.LoginUser | app/src/main/java/com/example/shiftgenie/LoginFragment.java:375-410 | the homepage exactly after a successful attempt, "Authentication failed." exactly after a failed one, and the check's field error otherwise |
| Login.ResetRequest | app/src/main/java/com/example/shiftgenie/LoginFragment.java:325-332 | a reset is requested exactly when the trimmed email is non-empty, with that email |
| Login.ResetPassword | app/src/main/java/com/example/shiftgenie/LoginFragment.java:325-369 | the field error exactly for a blank email; otherwise the sent or failed toast as the service answers |
| Login.AfterFederatedSignIn | app/src/main/java/com/example/shiftgenie/LoginFragment.java:178-231 | a failed sign-in or a null user gives its toast; otherwise the homepage exactly when the record exists, and the extra-details dialog when it does not |
| Login.SaveUserDetails | app/src/main/java/com/example/shiftgenie/LoginFragment.java:255-303 | the profile of exactly the four keys goes to Users/uid with the display name, the email and the trimmed age and phone, then the homepage opens |

## Left out

- Firebase plumbing is not modelled: queries, listeners, push-key generation, authentication calls
  and storage. A snapshot is an input sequence, an authentication answer or push key is a
  parameter, and a write is an output value.
- The asynchronous order of callbacks is not modelled. This covers the read-then-write race of the
  duplicate scan and the per-user count callbacks racing `notifyDataSetChanged`.
- `onCancelled` toasts and the "Database error" toast are not modelled. So are the "User details
  saved." and "Failed to save user details." toasts of the sign-up profile write, and the success
  and failure toasts of the shift and workplace writes (the outcome carries only whether the write
  succeeded).
- Display is not modelled: the `%.2f` money and hours texts, the `MMMM yyyy` month title, progress
  bars, navigation to the homepage after sign-up (the attempt stands for it), and adapter binding.
- `CalendarAdapter.getView` and `onBindViewHolder` are not modelled; they are view binding only.
- `ShiftForm.ClearFields`: `workplaceSpinner.setSelection(0)` is left out. That call fires the
  spinner callback later, and only asynchronously.
- The Cancel buttons of the extra-details and password-reset dialogs (`LoginFragment.java:262-268`,
  `LoginFragment.java:336-342`) and the Google Sign-In `ApiException` toast
  (`LoginFragment.java:164-168`) are not modelled; they only dismiss a dialog or show a toast.
- The shift screen's pickers can also be cancelled. A cancelled date dialog and a cancelled To time
  dialog change nothing. A cancelled From time dialog leaves the From calendar on the new date,
  which `ShiftForm.PickFromDate` models.
- Dates assume a fixed UTC zone with no daylight saving, and the proleptic Gregorian calendar
  throughout. `SimpleDateFormat` locale, lenient field widths and the Julian calendar before 1582
  are left out.
- `ParseStamp` refuses any field width other than `yyyy-MM-dd HH:mm` (four, two, two, two and two
  digits), which a lenient `SimpleDateFormat` also accepts. Within that layout it is lenient: an
  out-of-range month rolls into a neighbouring year, an out-of-range day, hour or minute runs on
  into the next ones, and text after the sixteenth character is ignored, as `parse` stops there.
- `Text.ParseDecimal` covers an optional sign, digits, an optional fraction and an optional type
  suffix `d`, `D`, `f` or `F`. `parseDouble`'s
  exponent, hexadecimal, `NaN` and `Infinity` forms are left out. Hours and money are exact reals,
  without IEEE-754 rounding.
- `UsersDirectory.UserOfRecord` deserialises only the string properties of a profile record. The
  numeric properties keep their defaults, which is what a profile written by the app gives.
- `Workplace.WorkplaceForm.SaveWorkplaceData` models a null push key as `Crash`. `child(null)`
  throws, and the model does not say which exception.
- The getters of `Shift` and `User` have no contracts of their own. They are field reads, and each
  setter's contract states what its getter then returns.
- ProfileFragment, the activities, UsersAdapter, the top-level ShiftsAdapter, UserDetailsActivity
  and the unused Users bean are not part of this model.

## Findings

| source | as written | input that shows it | evidently intended | confidence | as-written member | corrected member |
|---|---|---|---|---|---|---|
| app/src/main/java/com/example/shiftgenie/ShiftFragment.java:216, 234, 253 | Picking From sets the To calendar to the From instant but leaves the To text as it was. The order check compares the two calendars, while the saved end is built from the To text. | Pick From 10:00, To 12:00, then From again at 13:00 on the same date: the check passes, and the saved shift runs from 13:00 to 12:00, with -1 hours and negative earnings. | A shift is refused when its saved end is before its saved start. | not executed | ShiftCreation.StaleToAccepted | ShiftCreation.CreateShiftCheck |

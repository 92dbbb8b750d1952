# schedules_ai in Dafny

A model of the deterministic core of schedules_ai. The tool turns a described
on-call rotation into PagerDuty schedule layers. The model covers three parts:

- **Validation of a schedule layer** (`schedules_ai.py`, module `Layers`). The
  model runs pydantic's validators in the order pydantic runs them:
  - the two `pre` root validators: `generate_user_list` repeats each original
    user `num_shifts` times; `everyday_restriction` copies the first
    restriction onto all seven weekdays;
  - field validation: the `Restriction` validators, in module
    `Restrictions`;
  - the three post root validators: `adjust_start_date` moves the start to
    the first restriction day; `validate_start_and_end` refuses an end before
    the start; `set_rotation_turn_length` takes the turn length from the last
    restriction's kind.

  `Config.validate_timezone` and its name normalisation are in module
  `Timezones`.
- **Expansion of the validated layers into a shift table** (`app.py`,
  `transform_schedule_to_df`, module `Expansion`). Each layer is walked day by
  day for 52 weeks. One row is listed per restriction of the walked weekday.
  Users are handed out in turn. Finally the rows of all layers are sorted by
  start. The imperative walk is proved against a closed form:
  - the rows are the layer's slots, date by date;
  - the user of slot `j` is picked by the advances made before it, that is the
    daily slots before it plus the Sundays passed when the last restriction is
    weekly.

  On top of that closed form the model proves:
  - the daily rotation, including each original user taking `num_shifts`
    consecutive shifts;
  - the weekly rotation: one user per Monday-to-Sunday week, the next user a
    week later;
  - coverage of every restriction day;
  - sortedness and permutation of the final table.
- **The month calendar** (`calendar_1.py`, module `Calendar`). The model
  covers the random colours, with the draws supplied, and the month grids of
  `dataframe_to_html_calendar`. A grid is returned as data (months, weeks,
  cells and the shifts listed in each cell) rather than as HTML text. The
  proofs cover:
  - every day's cell sits in its weekday's column and lists exactly the shifts
    starting that day;
  - the month loop moves month by month;
  - a shift's month is drawn exactly when the loop's date for that month is
    not after the latest start.

Module `Dates` gives Python's proleptic Gregorian calendar as ordinals, with
ordinal 1 = 0001-01-01, a Monday. It also gives aware datetimes with a fixed
UTC offset. Modules `Text` (split and join) and `Wrappers` (`Option`,
`Result`) are shared helpers. An exception the source lets escape becomes an
`Err`/`None` result.

## Model

| member | source | states |
|---|---|---|
| Restrictions.ParseTimeOfDay | schedules_ai.py:68-91 | the strings `validate_start_time` and the field's pattern accept together (one or two ASCII digits per field, hour at most 23, minute and second at most 59) name a second of the day, 0 to 86399 |
| Restrictions.ParseAcceptsPattern | schedules_ai.py:68-69 | the modelled time parser (ASCII-digit `%H:%M:%S` fields, nothing after the seconds) accepts a string exactly when the field's regular expression, read as a full match, accepts it |
| Restrictions.ParsedMatchesPattern | schedules_ai.py:69 | every string the modelled time parser accepts matches the field's pattern |
| Restrictions.PatternParses | schedules_ai.py:83-91 | every string matching the field's pattern is accepted by the modelled time parser |
| Restrictions.PatternParsesAt | schedules_ai.py:83-91 | the pattern's groups between two colons are the three fields the modelled time parser reads |
| Restrictions.ParseFormatted | schedules_ai.py:39 | `HH:MM:SS` written from hour, minute and second reads back as that second of the day |
| Restrictions.CheckRestriction | schedules_ai.py:65-97 | no error exactly when the duration is positive, the time parses and the weekday is 1-7; otherwise the first failing field in declaration order |
| Restrictions.CheckRestrictions | schedules_ai.py:147 | no error exactly when every restriction is valid; an error is the first invalid restriction's, with all before it valid |
| Restrictions.StartSecond | schedules_ai.py:39 | a valid restriction's start is a second of the day |
| Restrictions.GetMatchingRestriction | schedules_ai.py:27-31 | `None` exactly when no restriction is on the weekday; otherwise the first restriction in list order on that weekday |
| Layers.TurnLength | schedules_ai.py:266-269 | 86400 exactly for a daily restriction, 604800 exactly for a weekly one |
| Layers.RepeatMeetsRepeatsEach | schedules_ai.py:166-170 | the nested loops' list holds each original user `num_shifts` times in a row, in order |
| Layers.RepeatNone | schedules_ai.py:168 | a non-positive `num_shifts` gives an empty user list |
| Layers.RepeatLength | schedules_ai.py:166-170 | the expanded list has `len(original_users) * num_shifts` entries |
| Layers.RepeatAt | schedules_ai.py:166-170 | position `i` of the expanded list holds original user `i / num_shifts` |
| Layers.GenerateUserList | schedules_ai.py:161-171 | only `users` changes, and it repeats each original user `num_shifts` times (1 when absent) |
| Layers.EverydayRestriction | schedules_ai.py:173-196 | a non-everyday layer is unchanged; everyday with no restrictions fails; otherwise seven copies of the first restriction for Monday to Sunday, or the error its fields raise |
| Layers.EverydayCoversWeek | schedules_ai.py:185-194 | after the expansion each weekday's matching restriction is its own copy and no other copy is on that day |
| Layers.ValidateFields | schedules_ai.py:100-159 | field validation passes exactly when `num_shifts` is present, the turn length is 86400 or 604800 and every restriction is valid; it changes nothing |
| Layers.GetStartTime | schedules_ai.py:33-46 | the result is in the layer's zone, on `rotation`'s date in that zone, at the clock time of the first restriction on `rotation`'s own weekday |
| Layers.StartTimeKeepsDay | schedules_ai.py:33-46 | in the rotation's own zone the date is kept and only the clock time moves |
| Layers.StartTimeCanLeaveRestrictionDay | schedules_ai.py:36-44 | the weekday is taken before the zone conversion: 23:00 Monday at UTC+0 read in UTC+2 starts a Monday-only layer on a Tuesday |
| Layers.DaysToRestrictionDay | schedules_ai.py:219-220 | from any date a restriction day is at most six days on, and the distance found lands on one |
| Layers.DaysToRestrictionDayStep | schedules_ai.py:219-220 | off a restriction day the distance is one more than from the next day |
| Layers.NoEarlierRestrictionDay | schedules_ai.py:219-220 | no restriction day lies between the date and the one found |
| Layers.NextRestrictionDay | schedules_ai.py:218-220 | the loop stops at the first restriction day, keeping the clock time and offset |
| Layers.AdjustedStartFacts | schedules_ai.py:198-222 | no restrictions is the only error besides an everyday layer with no matching restriction; only the two starts change; on a restriction day `start` equals `rotation_virtual_start` and, when that was given at the layer's offset, keeps its date; off one `rotation_virtual_start` is unchanged; when `rotation_virtual_start` is given at the layer's offset, the new start, read in that zone, is a restriction day |
| Layers.AdjustedStartMovesForward | schedules_ai.py:216-221 | when `rotation_virtual_start` is given at the layer's offset and is off a restriction day, the start moves forward one to six days, to the first restriction day |
| Layers.AdjustStartDate | schedules_ai.py:198-222 | the early return, the three branches and the day-by-day loop compute the adjusted start |
| Layers.IsTimezoneAware | schedules_ai.py:23-24 | always true: the function tests the imported class `tzinfo`, not its argument |
| Layers.ValidateStartAndEnd | schedules_ai.py:242-251 | fails exactly when an end is given that lies before the start, and then with that error: the awareness checks always pass; otherwise the layer is unchanged |
| Layers.SetRotationTurnLength | schedules_ai.py:260-270 | no restrictions leaves the layer alone; otherwise only the turn length changes, to the last restriction's kind |
| Layers.PreRootValidators | schedules_ai.py:161-196 | the user list is expanded, then the everyday expansion applies, and the result is their composition `PreRoot`; the other fields stay |
| Layers.PreRootFacts | schedules_ai.py:161-196 | the two `pre` validators fail only on an everyday layer whose first restriction is missing or, copied to any weekday, invalid; otherwise the result is the input with the repeated users and the everyday copies |
| Layers.CheckAndTurnKeeps | schedules_ai.py:224-270 | the last two post validators keep every field but the turn length, which comes from the last restriction |
| Layers.AdjustedStartKeeps | schedules_ai.py:198-222 | an adjusted layer had restrictions, and only its two starts differ from the input |
| Layers.PostRootIff | schedules_ai.py:198-270 | the post validators pass exactly when the start adjusts and the end is not before the adjusted start; a passing layer is the input with the adjusted starts and the last restriction's turn length |
| Layers.PostRootNoRestrictions | schedules_ai.py:200-201 | a layer with no restrictions is refused |
| Layers.PostRootKeeps | schedules_ai.py:198-270 | a layer that passes keeps its users and restrictions, is a valid layer, and gets its turn length from the last restriction |
| Layers.PostRootEndAfterStart | schedules_ai.py:249-251 | a layer that passes does not end before it starts |
| Layers.PostRootStartOnRestrictionDay | schedules_ai.py:205-221 | when `rotation_virtual_start` is given at the layer's offset, a passing layer's start, read in that zone, is a restriction day |
| Layers.PostRootValidators | schedules_ai.py:198-270 | the three post validators in order, with all the facts above |
| Layers.ValidatedIff | schedules_ai.py:100-270 | the composed validators accept a layer exactly when `num_shifts` is given, the turn length is 86400 or 604800, the restrictions after the everyday expansion are there and all valid, the start adjusts, and the end is not before the adjusted start; an accepted layer is the input with the repeated users, the expanded restrictions, the adjusted starts and the last restriction's turn length |
| Layers.ValidateScheduleLayers | schedules_ai.py:100-270 | the method runs the `pre` validators, field validation and the post validators in that order, stopping at the first failure, and equals their composition; it accepts exactly the layers `ValidatedIff` describes and returns the value it gives; a constructed layer is valid, keeps `num_shifts` and the original users, has no end before its start and, when `rotation_virtual_start` is given at the layer's offset, a start on a restriction day; a missing `num_shifts`, an everyday layer without restrictions, and a non-everyday layer with no or an invalid restriction are refused |
| Timezones.ToUpper | schedules_ai.py:291 | ASCII upper-casing keeps casedness and leaves uncased characters alone |
| Timezones.ToLower | schedules_ai.py:291 | ASCII lower-casing keeps casedness and leaves uncased characters alone |
| Timezones.TitleFrom | schedules_ai.py:291 | each character is cased by whether the one before it is cased |
| Timezones.Title | schedules_ai.py:291 | `str.title`: a cased character is upper-case exactly when it starts a word; uncased characters are unchanged |
| Timezones.TitleAroundSlash | schedules_ai.py:291 | title-casing `a/b` is title-casing `a` and `b` apart |
| Timezones.TitleOfJoin | schedules_ai.py:291 | title-casing a `/`-join is joining the title-cased parts |
| Timezones.SegmentsTitleLikeWhole | schedules_ai.py:291 | title-casing segment by segment equals title-casing the whole name |
| Timezones.NormaliseShape | schedules_ai.py:290-292 | the normalised name keeps its length and its slashes, has no spaces, turns spaces into `_`, and cases letters as `str.title` does |
| Timezones.NormaliseKeepsSegments | schedules_ai.py:291 | the number of `/` segments is unchanged |
| Timezones.NormaliseIdempotent | schedules_ai.py:290-292 | normalising a normalised name changes nothing |
| Timezones.ValidateTimezone | schedules_ai.py:288-302 | the normalised name is returned exactly when pytz knows it and PagerDuty supports it; pytz is asked first and each failure names the normalised name |
| Text.SplitOn | schedules_ai.py:291 | `split` gives at least one piece, none containing the separator |
| Text.JoinSplit | schedules_ai.py:291 | joining a split gives the string back |
| Text.SplitJoin | schedules_ai.py:291 | splitting a join of separator-free pieces gives the pieces back |
| Dates.IsoWeekday | app.py:64 | `isoweekday()` is 1 to 7 |
| Dates.SevenConsecutiveDays | schedules_ai.py:219-220 | any weekday comes up within the next seven days |
| Dates.DaysInMonth | calendar_1.py:40 | a month has 28 to 31 days |
| Dates.YmdOf | calendar_1.py:40 | `date.fromordinal` gives a valid date with that ordinal |
| Dates.YmdOfOrdinal | calendar_1.py:40 | ordinals name dates one to one |
| Dates.YearOf | calendar_1.py:40 | the year found holds the ordinal |
| Dates.MonthOf | calendar_1.py:40 | the month found holds the day of the year |
| Dates.MonthStep | calendar_1.py:70 | the last day of a month is followed by the 1st of the next |
| Dates.TwentyEighthPlusFour | calendar_1.py:70 | four days after the 28th is in the next month, on day `32 - days in the month` |
| Dates.NextMonth | calendar_1.py:70 | the next month is valid and in the same or the next year |
| Dates.NextMonthIndex | calendar_1.py:70 | the next month is one further in the month count |
| Dates.LaterMonthLaterStart | calendar_1.py:39 | a later month starts at least 28 days later |
| Dates.DateTime.AsTimezone | schedules_ai.py:41 | `astimezone` keeps the instant and sets the offset |
| Dates.DateTime.ReplaceTime | schedules_ai.py:42-44 | `replace(hour, minute, second)` keeps date and offset and sets the clock time |
| Dates.DateTime.AddSeconds | app.py:73-75 | adding seconds moves the instant by that much and keeps the offset |
| Dates.DateTime.ReplaceDay | calendar_1.py:37 | `replace(day=d)` keeps year, month, clock time and offset |
| Dates.DateTime.AddDays | schedules_ai.py:220 | adding days keeps the clock time and offset and moves the date by that many days |
| Dates.SameDateAndClock | schedules_ai.py:220 | a datetime is fixed by its date, clock time and offset |
| Dates.Combine | app.py:65-72 | `combine(date, time).replace(tzinfo)` has that date, clock time and offset |
| Expansion.SlotsOnMatch | app.py:63-64 | a date's slots are exactly its restrictions of that weekday |
| Expansion.SlotsInRange | app.py:58-64 | every slot lies in the walked range on its restriction's weekday |
| Expansion.RowAt | app.py:65-84 | a row starts on its slot's date, at the restriction's time, in the layer's offset, and lasts the restriction's duration |
| Expansion.RowsFor | app.py:77-84 | one row per slot, in slot order |
| Expansion.SlotsValidFor | app.py:63 | the walk's slots carry validated restrictions |
| Expansion.EmitStep | app.py:77-87 | a new row goes to the current user; only a daily restriction moves the user on |
| Expansion.EmitKeepsWalk | app.py:77-87 | appending the row and advancing keeps the walk's state |
| Expansion.SlotsOnPrefix | app.py:63-64 | the restriction loop adds a slot exactly for a restriction of the date's weekday |
| Expansion.ListShift | app.py:64-87 | the row for a matching restriction is appended and the index moves on after a daily one |
| Expansion.ListDate | app.py:63-87 | the restriction loop lists the date's slots in order, or fails on an empty user list |
| Expansion.ListRestriction | app.py:63-87 | one pass of the restriction loop lists restriction `i` on its weekday, or nothing |
| Expansion.ListedSkip | app.py:64 | a restriction of another weekday lists nothing |
| Expansion.ListedTake | app.py:64-87 | a restriction of the walked weekday adds its slot |
| Expansion.WalkedStart | app.py:58-60 | the walk starts with no rows and index 0 |
| Expansion.WalkedStep | app.py:62-94 | one loop pass is one more walked date |
| Expansion.WalkedAll | app.py:62-94 | after the last walked date the rows are the layer's rows |
| Expansion.WalkDate | app.py:63-94 | one date's rows, then the weekly advance on a Sunday when the last restriction is weekly |
| Expansion.ExpandLayer | app.py:55-94 | a layer with users yields its rows; one without users raises |
| Expansion.SlotsStep | app.py:62-94 | walking one more date appends that date's slots |
| Expansion.WalkDayStep | app.py:88-92 | the next date adds the weekly advance of a walked Sunday |
| Expansion.AdvanceIndex | app.py:88-94 | the index after a date follows from the index before its weekly advance |
| Expansion.SlotsNonEmpty | app.py:59-64 | every layer lists at least one shift |
| Expansion.WeekHasSlot | app.py:62-64 | any seven walked dates meet a restriction's weekday |
| Expansion.SlotsOnNonEmpty | app.py:63-64 | a date on some restriction's weekday has a slot |
| Expansion.SlotsCoverDay | app.py:62-64 | a walk has at least as many slots as any date it walks |
| Expansion.SlotsIncludeDay | app.py:62-64 | a walked date's slots are among the walk's slots |
| Expansion.Insert | app.py:100 | inserting into a sorted table keeps it sorted and adds exactly the row |
| Expansion.ConsSorted | app.py:100 | a row no later than a sorted table's head may go in front |
| Expansion.NoEarlierThanHead | app.py:100 | inserting a later row keeps the head earliest |
| Expansion.SortByStart | app.py:100 | the sorted table is ascending by start instant and a permutation of the rows |
| Expansion.TransformScheduleToDf | app.py:51-101 | a table exactly when every layer has users; it is sorted by start and holds exactly all layers' rows |
| ExpansionFacts.ShiftInWalk | app.py:58-84 | every listed shift lies in the walked 52 weeks, on its restriction's weekday, at its time, with its duration |
| ExpansionFacts.WalkCoversMatches | app.py:62-64 | every walked date gets a shift for each of its restrictions |
| ExpansionFacts.SlotsByDate | app.py:62-94 | before sorting the rows come date by date |
| ExpansionFacts.AllDailyCount | app.py:86-87 | with daily slots only, every listed slot moved the user on |
| ExpansionFacts.DailyRotation | app.py:86-87 | a daily layer gives shift `j` to `users[j % len(users)]` |
| ExpansionFacts.DailyRotationRepeats | app.py:86-87 | with the expanded list, each original user takes `num_shifts` consecutive shifts, in turn |
| ExpansionFacts.WeeklyRotation | app.py:88-92 | a weekly layer's user depends only on the Sundays passed before the shift |
| ExpansionFacts.NoDailyCount | app.py:86-87 | weekly slots never move the user on |
| ExpansionFacts.SameWeekSameSundays | app.py:88-92 | within one Monday-to-Sunday week no Sunday is passed before the last day |
| ExpansionFacts.SundaysSplit | app.py:88-92 | Sundays counted from the start add up at any later date |
| ExpansionFacts.WeekHasOneSunday | app.py:88-92 | any seven consecutive dates hold exactly one Sunday |
| ExpansionFacts.NextWeekOneSunday | app.py:88-92 | a week on, exactly one more Sunday has been passed |
| ExpansionFacts.WeeklySameWeek | app.py:88-92 | a weekly layer gives shifts of the same week to the same user |
| ExpansionFacts.WeeklyNextWeek | app.py:88-92 | a weekly layer gives the shift a week later to the next user |
| ExpansionFacts.SingleUserTakesAll | app.py:79 | one user takes every shift |
| ExpansionFacts.EmptyTableNoLayers | app.py:96-97 | the table is empty exactly when there are no layers |
| Calendar.Hex2 | calendar_1.py:18 | `{:02x}` is two lower-case hex digits |
| Calendar.HexDigitValue | calendar_1.py:18 | each hex digit reads back as its value |
| Calendar.Hex2RoundTrip | calendar_1.py:18 | two hex digits read back as the channel they were written from |
| Calendar.ColorOf | calendar_1.py:18 | a colour is `#` and six hex digits |
| Calendar.ColorRoundTrip | calendar_1.py:18 | a colour string gives back its three channels |
| Calendar.GenerateRandomColors | calendar_1.py:9-20 | `n` colours, colour `i` made from draw `i` |
| Calendar.ColorsInRange | calendar_1.py:13-18 | every colour is `#` and six hex digits with channels 100 to 255 |
| Calendar.DrawnColors | calendar_1.py:28 | one colour per supplied draw, in order |
| Calendar.Unique | calendar_1.py:27 | `unique()` holds each user of the column once and no other |
| Calendar.UniqueInOrder | calendar_1.py:27 | `unique()` lists values in order of first appearance: an earlier value first occurs before any occurrence of a later one |
| Calendar.Zip | calendar_1.py:29 | the colour map's keys are exactly the users |
| Calendar.ZipLookup | calendar_1.py:29 | each distinct user maps to the colour at its own position |
| Calendar.EveryUserColoured | calendar_1.py:27-29 | every user of the table has a colour |
| Calendar.UtcRows | calendar_1.py:24 | every start is converted to UTC and nothing else changes |
| Calendar.ShiftTable.ConvertStartsToUtc | calendar_1.py:24 | the table's start column is replaced by its UTC conversion |
| Calendar.UtcKeepsInstants | calendar_1.py:24 | conversion keeps every instant, user and duration, and dates become UTC dates |
| Calendar.EarliestStart | calendar_1.py:32 | `min()` is a start of the table no later than any other |
| Calendar.LatestStart | calendar_1.py:33 | `max()` is a start of the table no earlier than any other |
| Calendar.EarliestIsUtc | calendar_1.py:24-32 | the earliest start of a converted table is in UTC and on a real date |
| Calendar.MonthCalendar | calendar_1.py:40 | `monthcalendar` has weeks of seven cells holding 0 or a day of the month |
| Calendar.MonthCalendarCells | calendar_1.py:40 | a non-zero cell sits in its day's weekday column |
| Calendar.DayPlace | calendar_1.py:40 | every day of the month has a cell, in its weekday's column |
| Calendar.DayHasOneCell | calendar_1.py:40 | no other cell holds that day |
| Calendar.EntryOf | calendar_1.py:57-61 | an entry is the user, their colour, and the start and end instants shown in the display zone |
| Calendar.CellEntriesMembers | calendar_1.py:54-63 | a cell lists a row exactly when the row starts on the cell's date |
| Calendar.WeekCells | calendar_1.py:49-66 | a week row has one cell per day number, blank for 0 |
| Calendar.MonthGrid | calendar_1.py:40-67 | a month's table has one row per `monthcalendar` week |
| Calendar.DayCell | calendar_1.py:53-66 | day `d`'s cell in the grid lists the shifts starting that day |
| Calendar.ShiftListedInItsCell | calendar_1.py:53-64 | a shift is listed in its start day's cell, in that weekday's column |
| Calendar.MonthsFrom | calendar_1.py:39-70 | the months the loop draws are valid months |
| Calendar.MonthsConsecutive | calendar_1.py:70 | the loop moves month by month without gaps or repeats |
| Calendar.MonthDrawnIff | calendar_1.py:39 | a later month is drawn exactly when its loop date is not after the latest start |
| Calendar.MonthsFromStep | calendar_1.py:39 | a month not past the latest start is drawn and the loop goes on from the next |
| Calendar.FirstMonth | calendar_1.py:37 | the first drawn month holds the earliest start |
| Calendar.MonthsDrawn | calendar_1.py:37-39 | the drawn months are valid months |
| Calendar.EarlierMonthEndsBefore | calendar_1.py:39-70 | a month ends before any later month begins |
| Calendar.ShiftMonthDrawnIff | calendar_1.py:32-39 | a shift's month is drawn exactly when the 1st of it, at the earliest start's clock time, is not after the latest start |
| Calendar.DateMonotone | calendar_1.py:54 | in UTC an earlier instant has an earlier or equal date |
| Calendar.LastMonthSkipped | calendar_1.py:37-39 | the loop keeps the earliest start's clock time, so a latest shift early on the 1st of a month leaves that month undrawn |
| Calendar.FourDaysAfterTwentyEighth | calendar_1.py:70 | `replace(day=28) + 4 days` lands in the next month, keeping offset and clock time |
| Calendar.TwentyEighthDate | calendar_1.py:70 | four days after the 28th is that many dates on |
| Calendar.FirstOfMonth | calendar_1.py:37 | the loop date is the 1st of its month |
| Calendar.AdvanceMonth | calendar_1.py:70 | the step goes from the 1st of a month to the 1st of the next at the same clock time, strictly later |
| Calendar.DrawWeek | calendar_1.py:48-67 | the row drawn for a week is that week's cells |
| Calendar.DrawWeeks | calendar_1.py:47-67 | the weeks drawn are the month's grid |
| Calendar.WeeksDrawnStep | calendar_1.py:47-67 | drawing the next week extends the drawn weeks |
| Calendar.WeeksDrawnAll | calendar_1.py:47-67 | all weeks drawn make the month's grid |
| Calendar.DrawMonth | calendar_1.py:40-68 | the month drawn is its grid |
| Calendar.Grids | calendar_1.py:39-70 | one grid per month, in order |
| Calendar.CalendarOf | calendar_1.py:37-70 | one grid per drawn month, in order |
| Calendar.DrawMonthsFrom | calendar_1.py:39-70 | the loop draws the grids of the months up to the latest start |
| Calendar.DrawMonths | calendar_1.py:32-70 | the calendar drawn is the calendar of the table |
| Calendar.UtcDrawable | calendar_1.py:24-33 | a converted non-empty table can be drawn with one colour per user |
| Calendar.DataframeToHtmlCalendar | calendar_1.py:22-72 | the start column is converted to UTC in place, each user gets one colour, and the months from the earliest to the latest start are drawn |

## Left out

- Time zones are fixed UTC offsets. Daylight saving time and pytz's zone database are not modelled. `get_start_time`'s zone is passed in as an offset.
- The pytz zone list and PagerDuty's zone list (`pd_timezones`) are not part of this model. `ValidateTimezone` takes them as predicates.
- Case mapping covers ASCII letters only. `str.title` on other scripts is not modelled.
- The `^[\w/]+$` pattern on the `timezone` fields, and the length limits on `Config.name` and `Config.description`, are not modelled.
- Naive datetimes are not modelled. Every datetime is aware, so the `tz.localize` branches of `validate_start_and_end` never run.
- The checks against `datetime.now()` are left out, because the clock is I/O.
- Microseconds are left out. Datetimes hold whole seconds, which is all the source sets or reads.
- Dates before 0001-01-01 are not modelled. Neither is the year-9999 overflow Python raises.
- ValidateScheduleLayers, Restrictions.CheckRestriction, Restrictions.CheckRestrictions: return the first error, while pydantic collects every field error. After a failure no further field or validator is checked.
- Restrictions.ParseTimeOfDay: `strptime` alone also accepts non-ASCII decimal digits, and pydantic's pattern alone also accepts a trailing newline, because `$` matches before it. Each such string is refused by the other check, so the outcome is the same, but the model reports it as `InvalidTime` whichever check refused it.
- Layers.PostRootNoRestrictions: `adjust_start_date` returns `None` for an empty restriction list, and the next validator then fails on it. The model reports this as `Err(NoRestrictions)`.
- Everyday layers with an empty restriction list get `Err(EverydayWithoutRestriction)`. This stands for the `IndexError` the source raises.
- Layers.AdjustStartDate: an everyday layer off its restriction day gives `Err(NoMatchingRestriction)`. This stands for the `AttributeError` that `get_start_time` raises on a missing restriction.
- The pre validators work on the raw input dictionary. The model gives them the already-typed record, so a missing `restrictions` or `original_users` key is the empty list.
- `transform_schedule_to_df` keeps only `ScheduleLayers` instances (`isinstance`). The model's input is typed, so the filter keeps everything.
- Expansion.ExpandLayer: a layer without users gives `None`. This stands for the `IndexError` or `ZeroDivisionError` the source raises.
- Expansion.SortByStart: promises only ascending starts and a permutation. pandas' default sort is not stable, so the order of rows starting at the same instant is not pinned down.
- Calendar.DataframeToHtmlCalendar: requires a non-empty table, as app.py checks before calling it. `min()` of an empty column is `NaT`, which is not modelled.
- Calendar.DataframeToHtmlCalendar: requires every start to be on or after 0001-01-01 in UTC, so that UTC dates are real dates.
- Calendar.DataframeToHtmlCalendar: accepts any start from 0001-01-01 on, while `pd.to_datetime(..., utc=True)` raises `OutOfBoundsDatetime` for instants outside pandas' nanosecond range (about 1677 to 2262). That error path is not modelled.
- The HTML text, `strftime` month names and `%I:%M %p` times are not modelled. The calendar is returned as data holding the same content.
- `random.randint` is not modelled. Its draws are a parameter.
- Streamlit UI, the language-model prompt chain and the PagerDuty API calls are outside this model.

/**
 * `calendar_1.py`: the shift table drawn as one month grid after another.
 * The grid is returned as data (months, weeks, cells and the shifts listed in
 * them) instead of HTML text; random colours come in as supplied draws.
 */
module Calendar {
  import opened Dates
  import opened Expansion

  // ---------------------------------------------------------------------------
  // Colours
  // ---------------------------------------------------------------------------

  const HexDigits := "0123456789abcdef"

  /** One draw of `random.randint(100, 255)` for each channel. */
  datatype Rgb = Rgb(r: int, g: int, b: int)

  predicate ChannelsInRange(c: Rgb)
  {
    100 <= c.r <= 255 && 100 <= c.g <= 255 && 100 <= c.b <= 255
  }

  /** `'{:02x}'.format(v)` for `0 <= v < 256`. */
  function Hex2(v: int): (s: string)
    requires 0 <= v < 256
    ensures |s| == 2 && s[0] in HexDigits && s[1] in HexDigits
  {
    [HexDigits[v / 16], HexDigits[v % 16]]
  }

  /** The value of a lower-case hex digit. */
  function HexValue(c: char): int
  {
    if '0' <= c <= '9' then c as int - '0' as int
    else if 'a' <= c <= 'f' then c as int - 'a' as int + 10
    else -1
  }

  /** The value of two hex digits, the high one first. */
  function ParseHex2(hi: char, lo: char): int
  {
    HexValue(hi) * 16 + HexValue(lo)
  }

  lemma {:induction false} HexDigitValue(k: int)
    requires 0 <= k < 16
    ensures HexValue(HexDigits[k]) == k
  {
  }

  lemma {:induction false} Hex2RoundTrip(v: int)
    requires 0 <= v < 256
    ensures ParseHex2(Hex2(v)[0], Hex2(v)[1]) == v
  {
    HexDigitValue(v / 16);
    HexDigitValue(v % 16);
  }

  /** `'#{:02x}{:02x}{:02x}'.format(r, g, b)`. */
  function ColorOf(c: Rgb): (s: string)
    requires ChannelsInRange(c)
    ensures |s| == 7 && s[0] == '#' && forall i :: 1 <= i < 7 ==> s[i] in HexDigits
  {
    "#" + Hex2(c.r) + Hex2(c.g) + Hex2(c.b)
  }

  function ParseColor(s: string): Rgb
    requires |s| == 7
  {
    Rgb(ParseHex2(s[1], s[2]), ParseHex2(s[3], s[4]), ParseHex2(s[5], s[6]))
  }

  /** A colour string gives back the channels it was made from. */
  lemma {:induction false} ColorRoundTrip(c: Rgb)
    requires ChannelsInRange(c)
    ensures ParseColor(ColorOf(c)) == c
  {
    var s := ColorOf(c);
    assert s == "#" + Hex2(c.r) + Hex2(c.g) + Hex2(c.b);
    assert s[1] == Hex2(c.r)[0] && s[2] == Hex2(c.r)[1];
    assert s[3] == Hex2(c.g)[0] && s[4] == Hex2(c.g)[1];
    assert s[5] == Hex2(c.b)[0] && s[6] == Hex2(c.b)[1];
    Hex2RoundTrip(c.r);
    Hex2RoundTrip(c.g);
    Hex2RoundTrip(c.b);
  }

  /** `generate_random_colors(n)`, the `n` random draws supplied. */
  method GenerateRandomColors(n: nat, draws: seq<Rgb>) returns (colors: seq<string>)
    requires |draws| == n && forall i :: 0 <= i < n ==> ChannelsInRange(draws[i])
    ensures |colors| == n
    ensures forall i :: 0 <= i < n ==> colors[i] == ColorOf(draws[i])
  {
    colors := [];
    for k := 0 to n
      invariant |colors| == k && forall i :: 0 <= i < k ==> colors[i] == ColorOf(draws[i])
    {
      colors := colors + [ColorOf(draws[k])];
    }
  }

  /** Every generated colour is `#` and six hex digits whose channels are 100 to 255. */
  lemma {:induction false} ColorsInRange(draws: seq<Rgb>, colors: seq<string>, i: int)
    requires forall k :: 0 <= k < |draws| ==> ChannelsInRange(draws[k])
    requires |colors| == |draws| && forall k :: 0 <= k < |draws| ==> colors[k] == ColorOf(draws[k])
    requires 0 <= i < |colors|
    ensures |colors[i]| == 7 && colors[i][0] == '#' && forall k :: 1 <= k < 7 ==> colors[i][k] in HexDigits
    ensures ChannelsInRange(ParseColor(colors[i]))
  {
    ColorRoundTrip(draws[i]);
  }

  // ---------------------------------------------------------------------------
  // Users and their colours
  // ---------------------------------------------------------------------------

  function UserColumn(rows: seq<Shift>): (users: seq<string>)
    ensures |users| == |rows| && forall i :: 0 <= i < |rows| ==> users[i] == rows[i].user
  {
    seq(|rows|, i requires 0 <= i < |rows| => rows[i].user)
  }

  /** `Series.unique()`: each value once, in order of first appearance. */
  function Unique(xs: seq<string>): (u: seq<string>)
    ensures forall i, j :: 0 <= i < j < |u| ==> u[i] != u[j]
    ensures forall x :: x in xs <==> x in u
    decreases |xs|
  {
    if |xs| == 0 then []
    else
      var init := xs[..|xs| - 1];
      var u := Unique(init);
      assert xs == init + [xs[|xs| - 1]];
      if xs[|xs| - 1] in u then u else u + [xs[|xs| - 1]]
  }

  /**
   * The order of `unique()`: of two values it lists, the earlier one first
   * appears in `xs` before the later one appears at all.
   */
  lemma {:induction false} UniqueInOrder(xs: seq<string>, i: int, j: int)
    requires 0 <= i < j < |Unique(xs)|
    ensures exists a :: 0 <= a < |xs| && xs[a] == Unique(xs)[i] && Unique(xs)[j] !in xs[..a + 1]
    decreases |xs|
  {
    var n := |xs| - 1;
    var init := xs[..n];
    var u := Unique(init);
    assert xs == init + [xs[n]];
    assert Unique(xs) == if xs[n] in u then u else u + [xs[n]];
    if j < |u| {
      UniqueInOrder(init, i, j);
      var a :| 0 <= a < |init| && init[a] == u[i] && u[j] !in init[..a + 1];
      assert xs[..a + 1] == init[..a + 1];
    } else {
      assert u[i] in init;
      var a :| 0 <= a < |init| && init[a] == u[i];
      assert xs[..a + 1] == init[..a + 1];
    }
  }

  /** `dict(zip(keys, values))`. */
  function Zip(keys: seq<string>, values: seq<string>): (m: map<string, string>)
    requires |keys| == |values|
    ensures m.Keys == set k | k in keys
    decreases |keys|
  {
    if |keys| == 0 then map[]
    else
      var n := |keys| - 1;
      assert keys == keys[..n] + [keys[n]];
      Zip(keys[..n], values[..n])[keys[n] := values[n]]
  }

  /** Distinct keys: each one maps to the value at its own position. */
  lemma {:induction false} ZipLookup(keys: seq<string>, values: seq<string>, i: int)
    requires |keys| == |values| && 0 <= i < |keys|
    requires forall a, b :: 0 <= a < b < |keys| ==> keys[a] != keys[b]
    ensures Zip(keys, values)[keys[i]] == values[i]
    decreases |keys|
  {
    var n := |keys| - 1;
    assert Zip(keys, values) == Zip(keys[..n], values[..n])[keys[n] := values[n]];
    if i < n {
      assert keys[..n][i] == keys[i] && values[..n][i] == values[i];
      assert forall a, b :: 0 <= a < b < n ==> keys[..n][a] == keys[a] && keys[..n][b] == keys[b];
      ZipLookup(keys[..n], values[..n], i);
      assert keys[i] != keys[n];
    }
  }

  /** The colour map of `dataframe_to_html_calendar`: every user in the table has an entry. */
  lemma {:induction false} EveryUserColoured(rows: seq<Shift>, colors: seq<string>, i: int)
    requires |colors| == |Unique(UserColumn(rows))| && 0 <= i < |rows|
    ensures rows[i].user in Zip(Unique(UserColumn(rows)), colors)
  {
    assert UserColumn(rows)[i] == rows[i].user;
  }

  // ---------------------------------------------------------------------------
  // The table, converted to UTC in place
  // ---------------------------------------------------------------------------

  /** `pd.to_datetime(column, utc=True)` on the start column. */
  function UtcRows(rows: seq<Shift>): (r: seq<Shift>)
    ensures |r| == |rows|
    ensures forall i :: 0 <= i < |rows| ==> r[i] == rows[i].(start := rows[i].start.AsTimezone(0))
  {
    seq(|rows|, i requires 0 <= i < |rows| => rows[i].(start := rows[i].start.AsTimezone(0)))
  }

  /** The DataFrame handed to the calendar: its rows in table order. */
  class ShiftTable {
    var rows: seq<Shift>

    constructor(rows: seq<Shift>)
      ensures this.rows == rows
    {
      this.rows := rows;
    }

    /** `df['shift_start_datetime'] = pd.to_datetime(df['shift_start_datetime'], utc=True)`. */
    method ConvertStartsToUtc()
      modifies this
      ensures rows == UtcRows(old(rows))
    {
      var converted: seq<Shift> := [];
      for i := 0 to |rows|
        invariant converted == UtcRows(rows[..i])
      {
        assert rows[..i + 1][..i] == rows[..i];
        converted := converted + [rows[i].(start := rows[i].start.AsTimezone(0))];
      }
      assert rows[..|rows|] == rows;
      rows := converted;
    }
  }

  /** Converting keeps every instant and puts it in UTC. */
  lemma {:induction false} UtcKeepsInstants(rows: seq<Shift>, i: int)
    requires 0 <= i < |rows|
    ensures UtcRows(rows)[i].start.offset == 0 && UtcRows(rows)[i].start.Utc() == rows[i].start.Utc()
    ensures UtcRows(rows)[i].start.Date() == rows[i].start.Utc() / SecondsPerDay
    ensures UtcRows(rows)[i].user == rows[i].user && UtcRows(rows)[i].durationSeconds == rows[i].durationSeconds
  {
  }

  /** `.min()` of the start column. */
  function EarliestStart(rows: seq<Shift>): (first: DateTime)
    requires |rows| > 0
    ensures exists i :: 0 <= i < |rows| && rows[i].start == first
    ensures forall i :: 0 <= i < |rows| ==> first.Utc() <= rows[i].start.Utc()
    decreases |rows|
  {
    if |rows| == 1 then rows[0].start
    else
      var rest := EarliestStart(rows[1..]);
      assert forall i :: 1 <= i < |rows| ==> rows[1..][i - 1] == rows[i];
      if rows[0].start.Utc() <= rest.Utc() then rows[0].start else rest
  }

  /** `.max()` of the start column. */
  function LatestStart(rows: seq<Shift>): (last: DateTime)
    requires |rows| > 0
    ensures exists i :: 0 <= i < |rows| && rows[i].start == last
    ensures forall i :: 0 <= i < |rows| ==> rows[i].start.Utc() <= last.Utc()
    decreases |rows|
  {
    if |rows| == 1 then rows[0].start
    else
      var rest := LatestStart(rows[1..]);
      assert forall i :: 1 <= i < |rows| ==> rows[1..][i - 1] == rows[i];
      if rest.Utc() <= rows[0].start.Utc() then rows[0].start else rest
  }

  // ---------------------------------------------------------------------------
  // One month
  // ---------------------------------------------------------------------------

  /** `calendar.monthcalendar(year, month)`: Monday-first weeks, 0 outside the month. */
  function MonthCalendar(year: int, month: int): (weeks: seq<seq<int>>)
    requires year >= 1 && 1 <= month <= 12
    ensures forall r :: 0 <= r < |weeks| ==> |weeks[r]| == 7
    ensures forall r, c :: 0 <= r < |weeks| && 0 <= c < |weeks[r]| ==>
      weeks[r][c] == 0 || 1 <= weeks[r][c] <= DaysInMonth(year, month)
  {
    var lead := IsoWeekday(Ordinal(year, month, 1)) - 1;
    var days := DaysInMonth(year, month);
    seq((lead + days + 6) / 7, r =>
      seq(7, c => var d := 7 * r + c - lead + 1; if 1 <= d <= days then d else 0))
  }

  /**
   * Every day of the month appears in exactly one cell, in the column of its
   * weekday; every other cell is 0.
   */
  lemma {:induction false} MonthCalendarCells(year: int, month: int, r: int, c: int)
    requires year >= 1 && 1 <= month <= 12
    requires 0 <= r < |MonthCalendar(year, month)| && 0 <= c < 7
    ensures var d := MonthCalendar(year, month)[r][c];
      d == 0 || (1 <= d <= DaysInMonth(year, month) && IsoWeekday(Ordinal(year, month, d)) == c + 1)
  {
    var lead := IsoWeekday(Ordinal(year, month, 1)) - 1;
    var d := MonthCalendar(year, month)[r][c];
    if d != 0 {
      assert d == 7 * r + c - lead + 1;
      WeekdayOfDay(Ordinal(year, month, 1), d - 1);
      DivisionUnique(lead + (d - 1), r, c);
    }
  }

  lemma {:induction false} WeekdayOfDay(first: int, k: int)
    ensures IsoWeekday(first + k) == (IsoWeekday(first) - 1 + k) % 7 + 1
  {
    var q, r := (first + 6) / 7, (first + 6) % 7;
    assert first + k + 6 == 7 * q + (r + k);
    var q2, r2 := (r + k) / 7, (r + k) % 7;
    assert first + k + 6 == 7 * (q + q2) + r2;
    DivisionUnique(first + k + 6, q + q2, r2);
    DivisionUnique(IsoWeekday(first) - 1 + k, q2, r2);
  }

  lemma {:induction false} DivisionUnique(x: int, q: int, r: int)
    requires x == 7 * q + r && 0 <= r < 7
    ensures x % 7 == r
  {
  }

  /** The cell of `monthcalendar(year, month)` holding day `d`: the row, and the column of its weekday. */
  function DayPlace(year: int, month: int, d: int): (rc: (int, int))
    requires ValidDate(year, month, d)
    ensures 0 <= rc.0 < |MonthCalendar(year, month)| && 0 <= rc.1 < 7
    ensures MonthCalendar(year, month)[rc.0][rc.1] == d
    ensures rc.1 == IsoWeekday(Ordinal(year, month, d)) - 1
  {
    var lead := IsoWeekday(Ordinal(year, month, 1)) - 1;
    var x := d - 1 + lead;
    assert x == 7 * (x / 7) + x % 7;
    WeekdayOfDay(Ordinal(year, month, 1), d - 1);
    (x / 7, x % 7)
  }

  /** No other cell holds day `d`. */
  lemma {:induction false} DayHasOneCell(year: int, month: int, d: int, r: int, c: int)
    requires ValidDate(year, month, d)
    requires 0 <= r < |MonthCalendar(year, month)| && 0 <= c < 7 && MonthCalendar(year, month)[r][c] == d
    ensures (r, c) == DayPlace(year, month, d)
  {
    var lead := IsoWeekday(Ordinal(year, month, 1)) - 1;
    assert 7 * r + c == d - 1 + lead;
    DivAffine7(r, c);
  }

  lemma {:induction false} DivAffine7(r: int, c: int)
    requires 0 <= c < 7
    ensures (7 * r + c) / 7 == r && (7 * r + c) % 7 == c
  {
  }

  /** What a cell lists for one shift: the user, the colour and both times in the display zone. */
  datatype Entry = Entry(user: string, color: string, start: DateTime, end: DateTime)

  datatype Cell = Blank | Day(day: int, entries: seq<Entry>)

  datatype MonthView = MonthView(year: int, month: int, weeks: seq<seq<Cell>>)

  /** A row as listed: start and `start + shift_duration`, both `tz_convert`ed. */
  function EntryOf(row: Shift, colors: map<string, string>, displayOffset: int): (e: Entry)
    requires row.user in colors
    ensures e.user == row.user && e.color == colors[row.user]
    ensures e.start.offset == displayOffset && e.start.Utc() == row.start.Utc()
    ensures e.end.offset == displayOffset && e.end.Utc() == row.start.Utc() + row.durationSeconds
  {
    Entry(row.user, colors[row.user], row.start.AsTimezone(displayOffset),
      row.start.AddSeconds(row.durationSeconds).AsTimezone(displayOffset))
  }

  predicate AllColoured(rows: seq<Shift>, colors: map<string, string>)
  {
    forall i :: 0 <= i < |rows| ==> rows[i].user in colors
  }

  /** `df[df['shift_start_datetime'].dt.date == date]`, listed in table order. */
  function CellEntries(rows: seq<Shift>, date: int, colors: map<string, string>, displayOffset: int): seq<Entry>
    requires AllColoured(rows, colors)
    decreases |rows|
  {
    if |rows| == 0 then []
    else
      var n := |rows| - 1;
      CellEntries(rows[..n], date, colors, displayOffset) +
        (if rows[n].start.Date() == date then [EntryOf(rows[n], colors, displayOffset)] else [])
  }

  /** A cell lists a row exactly when the row's start date is the cell's date. */
  lemma {:induction false} CellEntriesMembers(rows: seq<Shift>, date: int, colors: map<string, string>, displayOffset: int, e: Entry)
    requires AllColoured(rows, colors)
    ensures e in CellEntries(rows, date, colors, displayOffset) <==>
      exists i :: 0 <= i < |rows| && rows[i].start.Date() == date && e == EntryOf(rows[i], colors, displayOffset)
    decreases |rows|
  {
    if |rows| > 0 {
      var n := |rows| - 1;
      var init := rows[..n];
      assert forall i :: 0 <= i < n ==> init[i] == rows[i];
      CellEntriesMembers(init, date, colors, displayOffset, e);
      if e in CellEntries(rows, date, colors, displayOffset) && e !in CellEntries(init, date, colors, displayOffset) {
        assert rows[n].start.Date() == date && e == EntryOf(rows[n], colors, displayOffset);
      }
    }
  }

  function CellFor(rows: seq<Shift>, year: int, month: int, d: int, colors: map<string, string>, displayOffset: int): Cell
    requires year >= 1 && 1 <= month <= 12 && AllColoured(rows, colors)
  {
    if d == 0 then Blank else Day(d, CellEntries(rows, Ordinal(year, month, d), colors, displayOffset))
  }

  function WeekCells(rows: seq<Shift>, year: int, month: int, week: seq<int>, colors: map<string, string>, displayOffset: int): (cells: seq<Cell>)
    requires year >= 1 && 1 <= month <= 12 && AllColoured(rows, colors)
    ensures |cells| == |week| && forall c :: 0 <= c < |week| ==> cells[c] == CellFor(rows, year, month, week[c], colors, displayOffset)
  {
    seq(|week|, c requires 0 <= c < |week| => CellFor(rows, year, month, week[c], colors, displayOffset))
  }

  /** The table drawn for one month. */
  function MonthGrid(rows: seq<Shift>, year: int, month: int, colors: map<string, string>, displayOffset: int): (view: MonthView)
    requires year >= 1 && 1 <= month <= 12 && AllColoured(rows, colors)
    ensures view.year == year && view.month == month && |view.weeks| == |MonthCalendar(year, month)|
    ensures forall r :: 0 <= r < |view.weeks| ==>
      view.weeks[r] == WeekCells(rows, year, month, MonthCalendar(year, month)[r], colors, displayOffset)
  {
    var cal := MonthCalendar(year, month);
    MonthView(year, month, seq(|cal|, r requires 0 <= r < |cal| => WeekCells(rows, year, month, cal[r], colors, displayOffset)))
  }

  // ---------------------------------------------------------------------------
  // The months drawn
  // ---------------------------------------------------------------------------

  predicate ValidMonth(ym: (int, int))
  {
    ym.0 >= 1 && 1 <= ym.1 <= 12
  }

  /** The loop's `current_date` in a month: the 1st, at the earliest start's UTC clock time. */
  function MonthStart(ym: (int, int), clock: int): int
    requires ValidMonth(ym)
  {
    Ordinal(ym.0, ym.1, 1) * SecondsPerDay + clock
  }

  /** The months the `while current_date <= end_date` loop draws, from month `ym` on. */
  function MonthsFrom(ym: (int, int), clock: int, limit: int): (ms: seq<(int, int)>)
    requires ValidMonth(ym) && 0 <= clock < SecondsPerDay
    ensures forall i :: 0 <= i < |ms| ==> ValidMonth(ms[i])
    decreases limit - MonthStart(ym, clock)
  {
    if MonthStart(ym, clock) > limit then []
    else
      var next := NextMonth(ym.0, ym.1);
      MonthStep(ym.0, ym.1);
      [ym] + MonthsFrom(next, clock, limit)
  }

  /** Month by month, without gaps or repeats. */
  lemma {:induction false} MonthsConsecutive(ym: (int, int), clock: int, limit: int, i: int)
    requires ValidMonth(ym) && 0 <= clock < SecondsPerDay
    requires 0 <= i < |MonthsFrom(ym, clock, limit)| - 1
    ensures var ms := MonthsFrom(ym, clock, limit);
      ms[i + 1] == NextMonth(ms[i].0, ms[i].1)
    decreases limit - MonthStart(ym, clock)
  {
    var next := NextMonth(ym.0, ym.1);
    MonthStep(ym.0, ym.1);
    if i > 0 {
      MonthsConsecutive(next, clock, limit, i - 1);
    }
  }

  /** A month at or after `ym` is drawn exactly when its loop date is not after the limit. */
  lemma {:induction false} MonthDrawnIff(ym: (int, int), clock: int, limit: int, target: (int, int))
    requires ValidMonth(ym) && ValidMonth(target) && 0 <= clock < SecondsPerDay
    requires MonthIndex(ym.0, ym.1) <= MonthIndex(target.0, target.1)
    ensures target in MonthsFrom(ym, clock, limit) <==> MonthStart(target, clock) <= limit
    decreases limit - MonthStart(ym, clock)
  {
    var next := NextMonth(ym.0, ym.1);
    MonthStep(ym.0, ym.1);
    if ym == target {
      if MonthStart(ym, clock) <= limit {
        assert MonthsFrom(ym, clock, limit)[0] == ym;
      }
    } else {
      assert MonthIndex(ym.0, ym.1) < MonthIndex(target.0, target.1);
      LaterMonthLaterStart(ym.0, ym.1, target.0, target.1);
      if MonthStart(ym, clock) <= limit {
        MonthDrawnIff(next, clock, limit, target);
      }
    }
  }

  /** A UTC table the calendar can be drawn for: non-empty, dates from 0001-01-01 on, every user coloured. */
  predicate Drawable(rows: seq<Shift>, colors: map<string, string>)
  {
    && |rows| > 0
    && (forall i :: 0 <= i < |rows| ==> rows[i].start.offset == 0 && rows[i].start.Date() >= 1)
    && AllColoured(rows, colors)
  }

  /** The earliest start of a drawable table is in UTC and on a real date. */
  lemma {:induction false} EarliestIsUtc(rows: seq<Shift>, colors: map<string, string>)
    requires Drawable(rows, colors)
    ensures EarliestStart(rows).offset == 0 && EarliestStart(rows).Date() >= 1
  {
    var i :| 0 <= i < |rows| && rows[i].start == EarliestStart(rows);
  }

  /** `(start_date.year, start_date.month)`. */
  function FirstMonth(rows: seq<Shift>, colors: map<string, string>): (ym: (int, int))
    requires Drawable(rows, colors)
    ensures ValidMonth(ym)
    ensures Ordinal(ym.0, ym.1, 1) <= EarliestStart(rows).Date() <= Ordinal(ym.0, ym.1, DaysInMonth(ym.0, ym.1))
  {
    EarliestIsUtc(rows, colors);
    var ymd := YmdOf(EarliestStart(rows).Date());
    (ymd.0, ymd.1)
  }

  /**
   * The months the loop draws: from the earliest start's month on, while the
   * 1st of the month at the earliest start's clock time is not after the latest start.
   */
  function MonthsDrawn(rows: seq<Shift>, colors: map<string, string>): (ms: seq<(int, int)>)
    requires Drawable(rows, colors)
    ensures forall i :: 0 <= i < |ms| ==> ValidMonth(ms[i])
  {
    MonthsFrom(FirstMonth(rows, colors), EarliestStart(rows).TimeOfDay(), LatestStart(rows).Utc())
  }

  /** The grids of the first `n` months of `ms`, in order. */
  function Grids(rows: seq<Shift>, ms: seq<(int, int)>, n: int, colors: map<string, string>, displayOffset: int): (views: seq<MonthView>)
    requires 0 <= n <= |ms| && forall i :: 0 <= i < |ms| ==> ms[i].0 >= 1 && 1 <= ms[i].1 <= 12
    requires AllColoured(rows, colors)
    ensures |views| == n
    ensures forall i :: 0 <= i < n ==> views[i] == MonthGrid(rows, ms[i].0, ms[i].1, colors, displayOffset)
    decreases n
  {
    if n == 0 then []
    else Grids(rows, ms, n - 1, colors, displayOffset) + [MonthGrid(rows, ms[n - 1].0, ms[n - 1].1, colors, displayOffset)]
  }

  /** The calendar drawn for a UTC table, month after month. */
  function CalendarOf(rows: seq<Shift>, colors: map<string, string>, displayOffset: int): (views: seq<MonthView>)
    requires Drawable(rows, colors)
    ensures |views| == |MonthsDrawn(rows, colors)|
    ensures forall i :: 0 <= i < |views| ==>
      views[i] == MonthGrid(rows, MonthsDrawn(rows, colors)[i].0, MonthsDrawn(rows, colors)[i].1, colors, displayOffset)
  {
    var ms := MonthsDrawn(rows, colors);
    Grids(rows, ms, |ms|, colors, displayOffset)
  }

  /** A month is over before any later month begins. */
  lemma {:induction false} EarlierMonthEndsBefore(y: int, m: int, y2: int, m2: int)
    requires ValidMonth((y, m)) && ValidMonth((y2, m2)) && MonthIndex(y, m) < MonthIndex(y2, m2)
    ensures Ordinal(y, m, DaysInMonth(y, m)) < Ordinal(y2, m2, 1)
  {
    var (ny, nm) := NextMonth(y, m);
    MonthStep(y, m);
    if MonthIndex(ny, nm) < MonthIndex(y2, m2) {
      LaterMonthLaterStart(ny, nm, y2, m2);
    } else {
      assert (ny, nm) == (y2, m2);
    }
  }

  /**
   * A shift's month is drawn exactly when the 1st of that month, at the
   * earliest start's clock time, is not after the latest start.
   */
  lemma {:induction false} ShiftMonthDrawnIff(rows: seq<Shift>, colors: map<string, string>, i: int)
    requires Drawable(rows, colors) && 0 <= i < |rows|
    ensures var ymd := YmdOf(rows[i].start.Date());
      (ymd.0, ymd.1) in MonthsDrawn(rows, colors) <==>
      MonthStart((ymd.0, ymd.1), EarliestStart(rows).TimeOfDay()) <= LatestStart(rows).Utc()
  {
    var ymd := YmdOf(rows[i].start.Date());
    var first := FirstMonth(rows, colors);
    EarliestIsUtc(rows, colors);
    assert EarliestStart(rows).Date() <= rows[i].start.Date() by {
      DateMonotone(EarliestStart(rows), rows[i].start);
    }
    if MonthIndex(ymd.0, ymd.1) < MonthIndex(first.0, first.1) {
      EarlierMonthEndsBefore(ymd.0, ymd.1, first.0, first.1);
      assert false;
    }
    MonthDrawnIff(first, EarliestStart(rows).TimeOfDay(), LatestStart(rows).Utc(), (ymd.0, ymd.1));
  }

  lemma {:induction false} DateMonotone(a: DateTime, b: DateTime)
    requires a.offset == 0 && b.offset == 0 && a.Utc() <= b.Utc()
    ensures a.Date() <= b.Date()
  {
  }

  /**
   * The source's month loop keeps the earliest start's clock time: a latest
   * shift on the 1st of a month, earlier in the day than the earliest shift's
   * start, leaves its month undrawn. Here: first shift 2025-01-15 12:00, last
   * 2025-02-01 08:00 (UTC); only January is drawn.
   */
  lemma {:induction false} LastMonthSkipped()
    ensures var feb1 := Ordinal(2025, 2, 1);
      MonthsFrom((2025, 1), 12 * 3600, feb1 * SecondsPerDay + 8 * 3600) == [(2025, 1)]
  {
    var feb1 := Ordinal(2025, 2, 1);
    var limit := feb1 * SecondsPerDay + 8 * 3600;
    assert NextMonth(2025, 1) == (2025, 2);
    assert MonthStart((2025, 2), 12 * 3600) > limit;
    assert MonthsFrom((2025, 2), 12 * 3600, limit) == [];
  }

  /**
   * The grid of a shift's month lists the shift in the cell of the day it
   * starts on, the column of that day's weekday.
   */
  lemma {:induction false} ShiftListedInItsCell(rows: seq<Shift>, colors: map<string, string>, displayOffset: int, i: int)
    requires AllColoured(rows, colors) && 0 <= i < |rows| && rows[i].start.Date() >= 1
    ensures var ymd := YmdOf(rows[i].start.Date());
      var (r, c) := DayPlace(ymd.0, ymd.1, ymd.2);
      var view := MonthGrid(rows, ymd.0, ymd.1, colors, displayOffset);
      view.weeks[r][c].Day? && view.weeks[r][c].day == ymd.2 &&
      EntryOf(rows[i], colors, displayOffset) in view.weeks[r][c].entries
  {
    var date := rows[i].start.Date();
    var ymd := YmdOf(date);
    var e := EntryOf(rows[i], colors, displayOffset);
    CellEntriesMembers(rows, date, colors, displayOffset, e);
    assert e in CellEntries(rows, Ordinal(ymd.0, ymd.1, ymd.2), colors, displayOffset);
    DayCell(rows, ymd.0, ymd.1, ymd.2, colors, displayOffset);
  }

  /** The cell of day `d` in a month's grid is that day's cell. */
  lemma {:induction false} DayCell(rows: seq<Shift>, year: int, month: int, d: int, colors: map<string, string>, displayOffset: int)
    requires ValidDate(year, month, d) && AllColoured(rows, colors)
    ensures var (r, c) := DayPlace(year, month, d);
      var view := MonthGrid(rows, year, month, colors, displayOffset);
      view.weeks[r][c] == Day(d, CellEntries(rows, Ordinal(year, month, d), colors, displayOffset))
  {
    var (r, c) := DayPlace(year, month, d);
    var cal := MonthCalendar(year, month);
    var view := MonthGrid(rows, year, month, colors, displayOffset);
    assert view.weeks[r] == WeekCells(rows, year, month, cal[r], colors, displayOffset);
  }

  // ---------------------------------------------------------------------------
  // Drawing
  // ---------------------------------------------------------------------------

  /** One row of the month table: a blank cell for 0, else the day and its shifts. */
  method DrawWeek(rows: seq<Shift>, current: DateTime, year: int, month: int, week: seq<int>,
                  colors: map<string, string>, displayOffset: int) returns (cells: seq<Cell>)
    requires current.Date() >= 1 && (year, month) == (YmdOf(current.Date()).0, YmdOf(current.Date()).1)
    requires AllColoured(rows, colors)
    requires forall c :: 0 <= c < |week| ==> week[c] == 0 || 1 <= week[c] <= DaysInMonth(year, month)
    ensures cells == WeekCells(rows, year, month, week, colors, displayOffset)
  {
    cells := [];
    for c := 0 to |week|
      invariant |cells| == c
      invariant forall j :: 0 <= j < c ==> cells[j] == CellFor(rows, year, month, week[j], colors, displayOffset)
    {
      var day := week[c];
      if day == 0 {
        cells := cells + [Blank];
      } else {
        var date := current.ReplaceDay(day);
        cells := cells + [Day(day, CellEntries(rows, date.Date(), colors, displayOffset))];
      }
      assert cells[c] == CellFor(rows, year, month, week[c], colors, displayOffset);
    }
  }

  /** The weeks and day cells of the month holding `current`, month `ym`. */
  method DrawMonth(rows: seq<Shift>, current: DateTime, ghost ym: (int, int), colors: map<string, string>, displayOffset: int)
    returns (view: MonthView)
    requires ValidMonth(ym) && current.Date() == Ordinal(ym.0, ym.1, 1) && AllColoured(rows, colors)
    ensures view == MonthGrid(rows, ym.0, ym.1, colors, displayOffset)
  {
    YmdOfOrdinal(ym.0, ym.1, 1);
    var ymd := YmdOf(current.Date());
    var weeks := DrawWeeks(rows, current, ymd.0, ymd.1, colors, displayOffset);
    view := MonthView(ymd.0, ymd.1, weeks);
  }

  /** The `for week in cal` loop: the month's weeks drawn one after another. */
  method DrawWeeks(rows: seq<Shift>, current: DateTime, year: int, month: int, colors: map<string, string>, displayOffset: int)
    returns (weeks: seq<seq<Cell>>)
    requires current.Date() >= 1 && (year, month) == (YmdOf(current.Date()).0, YmdOf(current.Date()).1)
    requires AllColoured(rows, colors)
    ensures MonthView(year, month, weeks) == MonthGrid(rows, year, month, colors, displayOffset)
  {
    var cal := MonthCalendar(year, month);
    weeks := [];
    for r := 0 to |cal|
      invariant |weeks| == r && WeeksDrawn(rows, year, month, colors, displayOffset, weeks)
    {
      var cells := DrawWeek(rows, current, year, month, cal[r], colors, displayOffset);
      WeeksDrawnStep(rows, year, month, colors, displayOffset, weeks, cells);
      weeks := weeks + [cells];
    }
    WeeksDrawnAll(rows, year, month, colors, displayOffset, weeks);
  }

  /** The first `|weeks|` weeks of the month's calendar are drawn. */
  ghost predicate WeeksDrawn(rows: seq<Shift>, year: int, month: int, colors: map<string, string>, displayOffset: int, weeks: seq<seq<Cell>>)
    requires year >= 1 && 1 <= month <= 12 && AllColoured(rows, colors)
  {
    var cal := MonthCalendar(year, month);
    |weeks| <= |cal| && forall j :: 0 <= j < |weeks| ==> weeks[j] == WeekCells(rows, year, month, cal[j], colors, displayOffset)
  }

  lemma WeeksDrawnStep(rows: seq<Shift>, year: int, month: int, colors: map<string, string>, displayOffset: int,
                       weeks: seq<seq<Cell>>, cells: seq<Cell>)
    requires year >= 1 && 1 <= month <= 12 && AllColoured(rows, colors)
    requires WeeksDrawn(rows, year, month, colors, displayOffset, weeks) && |weeks| < |MonthCalendar(year, month)|
    requires cells == WeekCells(rows, year, month, MonthCalendar(year, month)[|weeks|], colors, displayOffset)
    ensures WeeksDrawn(rows, year, month, colors, displayOffset, weeks + [cells])
  {
    var cal := MonthCalendar(year, month);
    var next := weeks + [cells];
    forall j | 0 <= j < |next|
      ensures next[j] == WeekCells(rows, year, month, cal[j], colors, displayOffset)
    {
      if j < |weeks| {
        assert next[j] == weeks[j];
      }
    }
  }

  lemma WeeksDrawnAll(rows: seq<Shift>, year: int, month: int, colors: map<string, string>, displayOffset: int, weeks: seq<seq<Cell>>)
    requires year >= 1 && 1 <= month <= 12 && AllColoured(rows, colors)
    requires WeeksDrawn(rows, year, month, colors, displayOffset, weeks) && |weeks| == |MonthCalendar(year, month)|
    ensures MonthView(year, month, weeks) == MonthGrid(rows, year, month, colors, displayOffset)
  {
    assert weeks == MonthGrid(rows, year, month, colors, displayOffset).weeks;
  }

  /** `current_date.replace(day=28) + timedelta(days=4)` lands on day 1 to 4 of the next month. */
  lemma {:induction false} FourDaysAfterTwentyEighth(current: DateTime, ym: (int, int))
    requires ValidMonth(ym) && current.Date() == Ordinal(ym.0, ym.1, 1)
    ensures current.Date() >= 1 && YmdOf(current.Date()) == (ym.0, ym.1, 1)
    ensures 28 <= DaysInMonth(YmdOf(current.Date()).0, YmdOf(current.Date()).1)
    ensures var b := current.ReplaceDay(28).AddDays(4);
      b.Date() >= 1 && b.offset == current.offset && b.TimeOfDay() == current.TimeOfDay() &&
      YmdOf(b.Date()) == (NextMonth(ym.0, ym.1).0, NextMonth(ym.0, ym.1).1, 32 - DaysInMonth(ym.0, ym.1))
  {
    FirstOfMonth(current, ym);
    TwentyEighthDate(current, ym);
    TwentyEighthPlusFour(ym.0, ym.1);
  }

  lemma TwentyEighthDate(current: DateTime, ym: (int, int))
    requires ValidMonth(ym) && current.Date() >= 1 && YmdOf(current.Date()) == (ym.0, ym.1, 1)
    ensures current.ReplaceDay(28).AddDays(4).Date() == Ordinal(ym.0, ym.1, 28) + 4
  {
  }

  /** The loop's `current_date` is the 1st of its month. */
  lemma FirstOfMonth(current: DateTime, ym: (int, int))
    requires ValidMonth(ym) && current.Date() == Ordinal(ym.0, ym.1, 1)
    ensures current.Date() >= 1 && YmdOf(current.Date()) == (ym.0, ym.1, 1)
  {
    YmdOfOrdinal(ym.0, ym.1, 1);
  }

  /**
   * `(current_date.replace(day=28) + timedelta(days=4)).replace(day=1)` moves
   * from the 1st of a month to the 1st of the next, keeping the clock time.
   */
  lemma {:induction false} AdvanceMonth(current: DateTime, ym: (int, int), clock: int)
    requires ValidMonth(ym) && 0 <= clock < SecondsPerDay
    requires current.offset == 0 && current.TimeOfDay() == clock && current.Date() == Ordinal(ym.0, ym.1, 1)
    ensures current.Date() >= 1 && YmdOf(current.Date()) == (ym.0, ym.1, 1)
    ensures 28 <= DaysInMonth(YmdOf(current.Date()).0, YmdOf(current.Date()).1)
    ensures current.ReplaceDay(28).AddDays(4).Date() >= 1
    ensures var next := current.ReplaceDay(28).AddDays(4).ReplaceDay(1);
      ValidMonth(NextMonth(ym.0, ym.1)) &&
      next.offset == 0 && next.TimeOfDay() == clock &&
      next.Date() == Ordinal(NextMonth(ym.0, ym.1).0, NextMonth(ym.0, ym.1).1, 1) &&
      next.Utc() == MonthStart(NextMonth(ym.0, ym.1), clock) &&
      MonthStart(ym, clock) < next.Utc()
  {
    FourDaysAfterTwentyEighth(current, ym);
    var next := current.ReplaceDay(28).AddDays(4).ReplaceDay(1);
    MonthStep(ym.0, ym.1);
    ClockSplit(next);
  }

  lemma {:induction false} ClockSplit(t: DateTime)
    ensures t.Utc() == t.Date() * SecondsPerDay + t.TimeOfDay() - t.offset
  {
  }

  /** A month not past the limit is drawn, and the walk goes on from the next. */
  lemma MonthsFromStep(ms: seq<(int, int)>, k: int, ym: (int, int), clock: int, limit: int)
    requires ValidMonth(ym) && 0 <= clock < SecondsPerDay && MonthStart(ym, clock) <= limit
    requires 0 <= k <= |ms| && ms[k..] == MonthsFrom(ym, clock, limit)
    ensures k < |ms| && ms[k] == ym
    ensures ValidMonth(NextMonth(ym.0, ym.1)) && ms[k + 1..] == MonthsFrom(NextMonth(ym.0, ym.1), clock, limit)
  {
    assert ms[k..] == [ym] + MonthsFrom(NextMonth(ym.0, ym.1), clock, limit);
    assert ms[k + 1..] == ms[k..][1..];
  }

  /** The `while current_date <= end_date` loop, month `ym0` first. */
  method DrawMonthsFrom(rows: seq<Shift>, start: DateTime, endDate: DateTime, ghost ym0: (int, int),
                        colors: map<string, string>, displayOffset: int) returns (views: seq<MonthView>)
    requires ValidMonth(ym0) && start.offset == 0 && start.Date() == Ordinal(ym0.0, ym0.1, 1)
    requires AllColoured(rows, colors)
    ensures var ms := MonthsFrom(ym0, start.TimeOfDay(), endDate.Utc());
      views == Grids(rows, ms, |ms|, colors, displayOffset)
  {
    ghost var clock := start.TimeOfDay();
    ghost var ms := MonthsFrom(ym0, clock, endDate.Utc());
    ghost var ym := ym0;
    ghost var k := 0;
    var current := start;
    ClockSplit(current);
    views := [];
    while current.Utc() <= endDate.Utc()
      invariant ValidMonth(ym) && current.offset == 0 && current.TimeOfDay() == clock
      invariant current.Date() == Ordinal(ym.0, ym.1, 1) && current.Utc() == MonthStart(ym, clock)
      invariant 0 <= k <= |ms| && ms[k..] == MonthsFrom(ym, clock, endDate.Utc())
      invariant views == Grids(rows, ms, k, colors, displayOffset)
      decreases endDate.Utc() - current.Utc()
    {
      AdvanceMonth(current, ym, clock);
      MonthsFromStep(ms, k, ym, clock, endDate.Utc());
      var view := DrawMonth(rows, current, ym, colors, displayOffset);
      views := views + [view];
      current := current.ReplaceDay(28).AddDays(4).ReplaceDay(1);
      ym := NextMonth(ym.0, ym.1);
      k := k + 1;
    }
  }

  /** The months from `start_date.replace(day=1)` to the latest start. */
  method DrawMonths(rows: seq<Shift>, colors: map<string, string>, displayOffset: int) returns (views: seq<MonthView>)
    requires Drawable(rows, colors)
    ensures views == CalendarOf(rows, colors, displayOffset)
  {
    var startDate, endDate := EarliestStart(rows), LatestStart(rows);
    EarliestIsUtc(rows, colors);
    var current := startDate.ReplaceDay(1);
    views := DrawMonthsFrom(rows, current, endDate, FirstMonth(rows, colors), colors, displayOffset);
  }

  /** The colours `generate_random_colors` makes from the supplied draws. */
  function DrawnColors(draws: seq<Rgb>): (colors: seq<string>)
    requires forall i :: 0 <= i < |draws| ==> ChannelsInRange(draws[i])
    ensures |colors| == |draws| && forall i :: 0 <= i < |draws| ==> colors[i] == ColorOf(draws[i])
  {
    seq(|draws|, i requires 0 <= i < |draws| => ColorOf(draws[i]))
  }

  /** A non-empty table on real dates, converted to UTC, can be drawn with one colour per user. */
  lemma {:induction false} UtcDrawable(rows: seq<Shift>, colors: seq<string>)
    requires |rows| > 0 && forall i :: 0 <= i < |rows| ==> rows[i].start.Utc() >= SecondsPerDay
    requires |colors| == |Unique(UserColumn(rows))|
    ensures UserColumn(UtcRows(rows)) == UserColumn(rows)
    ensures Drawable(UtcRows(rows), Zip(Unique(UserColumn(rows)), colors))
  {
    var utc := UtcRows(rows);
    assert UserColumn(utc) == UserColumn(rows);
    forall i | 0 <= i < |utc|
      ensures utc[i].start.offset == 0 && utc[i].start.Date() >= 1
      ensures utc[i].user in Zip(Unique(UserColumn(rows)), colors)
    {
      UtcKeepsInstants(rows, i);
      EveryUserColoured(utc, colors, i);
    }
  }

  /**
   * `dataframe_to_html_calendar(df, timezone)` on a non-empty table: the start
   * column is converted to UTC in place, each distinct user gets one colour,
   * and the months from the earliest to the latest start are drawn.
   */
  method DataframeToHtmlCalendar(table: ShiftTable, displayOffset: int, draws: seq<Rgb>) returns (views: seq<MonthView>)
    requires |table.rows| > 0
    requires forall i :: 0 <= i < |table.rows| ==> table.rows[i].start.Utc() >= SecondsPerDay
    requires |draws| == |Unique(UserColumn(table.rows))|
    requires forall i :: 0 <= i < |draws| ==> ChannelsInRange(draws[i])
    modifies table
    ensures table.rows == UtcRows(old(table.rows))
    ensures |Unique(UserColumn(table.rows))| == |draws|
    ensures var colors := Zip(Unique(UserColumn(table.rows)), DrawnColors(draws));
      Drawable(table.rows, colors) && views == CalendarOf(table.rows, colors, displayOffset)
  {
    ghost var before := table.rows;
    table.ConvertStartsToUtc();
    var rows := table.rows;
    UtcDrawable(before, DrawnColors(draws));
    var users := Unique(UserColumn(rows));
    var colorList := GenerateRandomColors(|users|, draws);
    assert colorList == DrawnColors(draws);
    var userColors := Zip(users, colorList);
    views := DrawMonths(rows, userColors, displayOffset);
  }
}

/**
 * One schedule layer (schedules_ai.py, class ScheduleLayers) and the root
 * validators that normalise it, run in pydantic's order: the two `pre` root
 * validators, then field validation, then the three post root validators.
 */
module Layers {
  import opened Wrappers
  import opened Dates
  import opened Restrictions

  datatype User = User(userName: string)

  /** The `values` of one layer; `numShifts` is `None` when the key is absent. */
  datatype ScheduleLayers = ScheduleLayers(
    timezone: string,
    numShifts: Option<int>,
    start: DateTime,
    rotationVirtualStart: DateTime,
    end: Option<DateTime>,
    rotationTurnLengthSeconds: int,
    users: seq<User>,
    restrictions: seq<Restriction>,
    originalUsers: seq<User>,
    spansMultipleDays: bool,
    everyday: bool)

  /** Why a layer is refused: a validation error or an exception the validators let escape. */
  datatype LayerError =
    | MissingNumShifts
    | TurnLengthNotAllowed
    | InvalidRestriction(reason: RestrictionError)
    | EverydayWithoutRestriction
    | NoRestrictions
    | NoMatchingRestriction
    | EndBeforeStart
    | NotTimezoneAware

  const DailyTurnLength := 86400
  const WeeklyTurnLength := 604800

  function TurnLength(kind: Kind): (seconds: int)
    ensures seconds == DailyTurnLength <==> kind == DailyRestriction
    ensures seconds == WeeklyTurnLength <==> kind == WeeklyRestriction
  {
    match kind
    case DailyRestriction => DailyTurnLength
    case WeeklyRestriction => WeeklyTurnLength
  }

  /** `values.get("num_shifts", 1)`. */
  function ShiftsPerUser(numShifts: Option<int>): int
  {
    match numShifts
    case None => 1
    case Some(n) => n
  }

  /** `users` holds each of `original` `n` times in a row, in order; nothing when `n <= 0`. */
  predicate RepeatsEach(users: seq<User>, original: seq<User>, n: int)
  {
    if n <= 0 then users == []
    else |users| == |original| * n && forall i :: 0 <= i < |users| ==> users[i] == original[i / n]
  }

  lemma {:induction false} DivAffine(k: int, n: int, j: int)
    requires n > 0 && 0 <= j < n
    ensures (k * n + j) / n == k
  {
    var x := k * n + j;
    var q, r := x / n, x % n;
    assert x == q * n + r;
    assert (q - k) * n == j - r;
    if q > k {
      MulAtLeast(q - k, n);
    } else if q < k {
      MulAtLeast(k - q, n);
    }
  }

  lemma {:induction false} DivBelow(i: int, n: int, m: int)
    requires n > 0 && 0 <= i < m * n
    ensures 0 <= i / n < m
  {
    var q := i / n;
    assert q * n <= i;
    if q >= m {
      MulMonotone(m, q, n);
    }
  }

  lemma {:induction false} MulMonotone(a: int, b: int, n: int)
    requires a <= b && n >= 0
    ensures a * n <= b * n
  {
    assert b * n - a * n == (b - a) * n;
  }

  lemma {:induction false} MulAtLeast(a: int, n: int)
    requires a >= 1 && n >= 1
    ensures a * n >= n
    decreases a
  {
    if a > 1 {
      MulAtLeast(a - 1, n);
      assert a * n == (a - 1) * n + n;
    }
  }

  /** `n` copies of `u`. */
  function Copies(u: User, n: nat): (c: seq<User>)
    ensures |c| == n && forall i :: 0 <= i < n ==> c[i] == u
  {
    seq(n, _ => u)
  }

  /** Each user of `s` in turn, `n` times (none when `n <= 0`): the list the nested loops build. */
  function Repeat(s: seq<User>, n: int): seq<User>
    decreases |s|
  {
    if |s| == 0 then [] else Repeat(s[..|s| - 1], n) + Copies(s[|s| - 1], if n > 0 then n else 0)
  }

  lemma {:induction false} RepeatMeetsRepeatsEach(s: seq<User>, n: int)
    ensures RepeatsEach(Repeat(s, n), s, n)
  {
    if n <= 0 {
      RepeatNone(s, n);
    } else {
      RepeatLength(s, n);
      forall i | 0 <= i < |Repeat(s, n)|
        ensures i / n < |s| && Repeat(s, n)[i] == s[i / n]
      {
        RepeatAt(s, n, i);
      }
    }
  }

  lemma {:induction false} RepeatNone(s: seq<User>, n: int)
    requires n <= 0
    ensures Repeat(s, n) == []
    decreases |s|
  {
    if |s| > 0 {
      RepeatNone(s[..|s| - 1], n);
    }
  }

  lemma {:induction false} RepeatLength(s: seq<User>, n: int)
    requires n > 0
    ensures |Repeat(s, n)| == |s| * n
    decreases |s|
  {
    if |s| > 0 {
      RepeatLength(s[..|s| - 1], n);
      assert |s| * n == (|s| - 1) * n + n;
    }
  }

  /** Position `i` of the repeated list holds user `i / n`. */
  lemma {:induction false} RepeatAt(s: seq<User>, n: int, i: int)
    requires n > 0 && 0 <= i < |s| * n
    ensures |Repeat(s, n)| == |s| * n
    ensures 0 <= i / n < |s| && Repeat(s, n)[i] == s[i / n]
    decreases |s|
  {
    RepeatLength(s, n);
    var p := s[..|s| - 1];
    RepeatLength(p, n);
    assert |s| * n == |p| * n + n;
    if i < |p| * n {
      RepeatAt(p, n, i);
      assert Repeat(s, n)[i] == Repeat(p, n)[i];
    } else {
      DivAffine(|p|, n, i - |p| * n);
      assert i == |p| * n + (i - |p| * n);
    }
  }

  /** `generate_user_list`: `users` becomes each original user repeated `num_shifts` times. */
  method GenerateUserList(values: ScheduleLayers) returns (r: ScheduleLayers)
    ensures r == values.(users := r.users)
    ensures r.users == Repeat(values.originalUsers, ShiftsPerUser(values.numShifts))
    ensures RepeatsEach(r.users, values.originalUsers, ShiftsPerUser(values.numShifts))
  {
    var n := ShiftsPerUser(values.numShifts);
    var original := values.originalUsers;
    var expanded: seq<User> := [];
    var k := 0;
    while k < |original|
      invariant 0 <= k <= |original|
      invariant expanded == Repeat(original[..k], n)
    {
      var j := 0;
      while j < n
        invariant 0 <= j <= (if n > 0 then n else 0)
        invariant expanded == Repeat(original[..k], n) + Copies(original[k], j)
      {
        assert Copies(original[k], j) + [original[k]] == Copies(original[k], j + 1);
        expanded := expanded + [original[k]];
        j := j + 1;
      }
      assert original[..k + 1][..k] == original[..k];
      assert j == (if n > 0 then n else 0);
      k := k + 1;
    }
    assert original[..k] == original;
    RepeatMeetsRepeatsEach(original, n);
    r := values.(users := expanded);
  }

  /** `everyday_restriction`: one copy of the first restriction for each day Monday to Sunday. */
  function EverydayRestriction(values: ScheduleLayers): (r: Result<ScheduleLayers, LayerError>)
    ensures !values.everyday ==> r == Ok(values)
    ensures values.everyday && |values.restrictions| == 0 ==> r == Err(EverydayWithoutRestriction)
    ensures values.everyday && |values.restrictions| > 0 ==>
      var first := values.restrictions[0];
      (r.Ok? <==> first.durationSeconds > 0 && ValidStartTime(first.startTimeOfDay)) &&
      (r.Err? ==> r.error == InvalidRestriction(CheckRestriction(first.(startDayOfWeek := 1)).value)) &&
      (r.Ok? ==> (r.value == values.(restrictions := r.value.restrictions) &&
        |r.value.restrictions| == 7 &&
        forall i :: 0 <= i < 7 ==> r.value.restrictions[i] == first.(startDayOfWeek := i + 1)))
  {
    if !values.everyday then Ok(values)
    else if |values.restrictions| == 0 then Err(EverydayWithoutRestriction)
    else
      var first := values.restrictions[0];
      var monday := Restriction(first.kind, first.durationSeconds, first.startTimeOfDay, 1);
      match CheckRestriction(monday)
      case Some(e) => Err(InvalidRestriction(e))
      case None =>
        Ok(values.(restrictions := seq(7, i => Restriction(first.kind, first.durationSeconds, first.startTimeOfDay, i + 1))))
  }

  /** After the everyday expansion every weekday has exactly its own restriction. */
  lemma {:induction false} EverydayCoversWeek(values: ScheduleLayers, day: int)
    requires values.everyday && EverydayRestriction(values).Ok?
    requires 1 <= day <= 7
    ensures var rs := EverydayRestriction(values).value.restrictions;
      GetMatchingRestriction(rs, day) == Some(rs[day - 1]) &&
      forall i :: 0 <= i < |rs| && i != day - 1 ==> rs[i].startDayOfWeek != day
  {
    var rs := EverydayRestriction(values).value.restrictions;
    assert rs[day - 1].startDayOfWeek == day;
  }

  /** Field validation, in the order the fields are declared. */
  function ValidateFields(values: ScheduleLayers): (r: Result<ScheduleLayers, LayerError>)
    ensures r.Ok? ==> r.value == values
    ensures r.Ok? <==> (values.numShifts.Some? &&
      (values.rotationTurnLengthSeconds == DailyTurnLength || values.rotationTurnLengthSeconds == WeeklyTurnLength) &&
      forall i :: 0 <= i < |values.restrictions| ==> ValidRestriction(values.restrictions[i]))
    ensures values.numShifts.None? ==> r == Err(MissingNumShifts)
  {
    if values.numShifts.None? then Err(MissingNumShifts)
    else if values.rotationTurnLengthSeconds != DailyTurnLength && values.rotationTurnLengthSeconds != WeeklyTurnLength
    then Err(TurnLengthNotAllowed)
    else match CheckRestrictions(values.restrictions)
      case Some(e) => Err(InvalidRestriction(e))
      case None => Ok(values)
  }

  /**
   * `get_start_time`: the restriction is looked up by the weekday `rotation` has
   * in its own offset; the clock time is then set on its date in the layer's zone.
   */
  function GetStartTime(rotation: DateTime, zoneOffset: int, rs: seq<Restriction>): (r: DateTime)
    requires HasDay(rs, IsoWeekday(rotation.Date()))
    requires forall i :: 0 <= i < |rs| ==> ValidRestriction(rs[i])
    ensures r.offset == zoneOffset
    ensures r.Date() == rotation.AsTimezone(zoneOffset).Date()
    ensures exists i :: (0 <= i < |rs| && rs[i].startDayOfWeek == IsoWeekday(rotation.Date()) &&
      r.TimeOfDay() == StartSecond(rs[i]) &&
      forall j :: 0 <= j < i ==> rs[j].startDayOfWeek != IsoWeekday(rotation.Date()))
  {
    var restriction := GetMatchingRestriction(rs, IsoWeekday(rotation.Date())).value;
    rotation.AsTimezone(zoneOffset).ReplaceTime(StartSecond(restriction))
  }

  /** In the layer's own zone the start keeps its date, so it falls on a restriction day. */
  lemma {:induction false} StartTimeKeepsDay(rotation: DateTime, rs: seq<Restriction>)
    requires HasDay(rs, IsoWeekday(rotation.Date()))
    requires forall i :: 0 <= i < |rs| ==> ValidRestriction(rs[i])
    ensures GetStartTime(rotation, rotation.offset, rs).Date() == rotation.Date()
    ensures GetStartTime(rotation, rotation.offset, rs).Utc() - rotation.Utc() ==
      GetStartTime(rotation, rotation.offset, rs).TimeOfDay() - rotation.TimeOfDay()
  {
  }

  /**
   * With another offset the date can move: 23:00 on a Monday at UTC+0 read in
   * UTC+2 is a Tuesday, so a Monday-only layer gets a Tuesday start.
   */
  lemma {:induction false} StartTimeCanLeaveRestrictionDay(monday: Restriction, day: int)
    requires ValidRestriction(monday) && monday.startDayOfWeek == 1 && IsoWeekday(day) == 1
    requires IsRestrictionDay([monday], day)
    ensures var rotation := DateTime(day * SecondsPerDay + 23 * 3600, 0);
      rotation.Date() == day &&
      !IsRestrictionDay([monday], GetStartTime(rotation, 7200, [monday]).Date())
  {
    var rotation := DateTime(day * SecondsPerDay + 23 * 3600, 0);
    SplitSeconds(day, 23 * 3600);
    assert rotation.AsTimezone(7200).local == (day + 1) * SecondsPerDay + 3600;
    SplitSeconds(day + 1, 3600);
    assert GetStartTime(rotation, 7200, [monday]).Date() == day + 1;
    assert IsoWeekday(day + 1) == 2;
  }

  /** Does some restriction fall on the weekday of ordinal `date`? */
  predicate IsRestrictionDay(rs: seq<Restriction>, date: int)
  {
    HasDay(rs, IsoWeekday(date))
  }

  /** Off weekday `w`, the next day is one day closer to it. */
  lemma WeekdayCloser(w: int, date: int)
    requires 1 <= w <= 7 && IsoWeekday(date) != w
    ensures 0 <= (w - IsoWeekday(date + 1)) % 7 < (w - IsoWeekday(date)) % 7 <= 6
  {
    assert IsoWeekday(date + 1) == IsoWeekday(date) % 7 + 1;
  }

  /** Days from `date` to the first restriction day on or after it: at most six. */
  function DaysToRestrictionDay(rs: seq<Restriction>, date: int): (k: nat)
    requires |rs| > 0 && ValidRestriction(rs[0])
    ensures k <= (rs[0].startDayOfWeek - IsoWeekday(date)) % 7 <= 6
    ensures IsRestrictionDay(rs, date + k)
    decreases (rs[0].startDayOfWeek - IsoWeekday(date)) % 7
  {
    if IsRestrictionDay(rs, date) then 0
    else
      WeekdayCloser(rs[0].startDayOfWeek, date);
      1 + DaysToRestrictionDay(rs, date + 1)
  }

  /** Off a restriction day the distance is one more than from the next day. */
  lemma DaysToRestrictionDayStep(rs: seq<Restriction>, date: int)
    requires |rs| > 0 && ValidRestriction(rs[0]) && !IsRestrictionDay(rs, date)
    ensures DaysToRestrictionDay(rs, date) == 1 + DaysToRestrictionDay(rs, date + 1)
  {
  }

  /** No restriction day comes before the one `DaysToRestrictionDay` finds: it is the first. */
  lemma {:induction false} NoEarlierRestrictionDay(rs: seq<Restriction>, date: int)
    requires |rs| > 0 && ValidRestriction(rs[0])
    ensures forall x :: date <= x < date + DaysToRestrictionDay(rs, date) ==> !IsRestrictionDay(rs, x)
    decreases DaysToRestrictionDay(rs, date)
  {
    if !IsRestrictionDay(rs, date) {
      NoEarlierRestrictionDay(rs, date + 1);
    }
  }

  /**
   * `adjust_start_date`: on a restriction day both starts move to that day's
   * restriction time; otherwise `start` moves to the next restriction day.
   */
  function AdjustedStart(values: ScheduleLayers, zoneOffset: int): Result<ScheduleLayers, LayerError>
    requires forall i :: 0 <= i < |values.restrictions| ==> ValidRestriction(values.restrictions[i])
  {
    var rs, vs := values.restrictions, values.rotationVirtualStart;
    if |rs| == 0 then Err(NoRestrictions)
    else if IsRestrictionDay(rs, vs.Date()) then
      var adjusted := GetStartTime(vs, zoneOffset, rs);
      Ok(values.(start := adjusted, rotationVirtualStart := adjusted))
    else if values.everyday then Err(NoMatchingRestriction)
    else Ok(values.(start := GetStartTime(vs.AddDays(DaysToRestrictionDay(rs, vs.Date())), zoneOffset, rs)))
  }

  /**
   * What the adjustment promises: no restrictions is the one error besides an
   * everyday layer off its day; only the starts change; on a restriction day
   * both starts become the same time, on the same date in the layer's own
   * zone; off one, `rotation_virtual_start` is left as it was; read in the
   * layer's own zone the new start is a restriction day.
   */
  lemma {:induction false} AdjustedStartFacts(values: ScheduleLayers, zoneOffset: int)
    requires forall i :: 0 <= i < |values.restrictions| ==> ValidRestriction(values.restrictions[i])
    ensures var r := AdjustedStart(values, zoneOffset);
      (|values.restrictions| == 0 <==> r == Err(NoRestrictions)) &&
      (r.Err? ==> r.error == NoRestrictions || r.error == NoMatchingRestriction) &&
      (r.Ok? ==> r.value == values.(start := r.value.start, rotationVirtualStart := r.value.rotationVirtualStart)) &&
      (r.Ok? && values.rotationVirtualStart.offset == zoneOffset ==>
        r.value.start.offset == zoneOffset && IsRestrictionDay(values.restrictions, r.value.start.Date())) &&
      (r.Ok? && IsRestrictionDay(values.restrictions, values.rotationVirtualStart.Date()) ==>
        r.value.start == r.value.rotationVirtualStart &&
        (values.rotationVirtualStart.offset == zoneOffset ==> r.value.start.Date() == values.rotationVirtualStart.Date())) &&
      (r.Ok? && !IsRestrictionDay(values.restrictions, values.rotationVirtualStart.Date()) ==>
        r.value.rotationVirtualStart == values.rotationVirtualStart)
  {
    var rs, vs := values.restrictions, values.rotationVirtualStart;
    if |rs| > 0 && vs.offset == zoneOffset {
      if IsRestrictionDay(rs, vs.Date()) {
        StartTimeKeepsDay(vs, rs);
      } else if !values.everyday {
        var k := DaysToRestrictionDay(rs, vs.Date());
        StartTimeKeepsDay(vs.AddDays(k), rs);
      }
    }
  }

  /** Off a restriction day the start moves forward by one to six days, to the first restriction day. */
  lemma {:induction false} AdjustedStartMovesForward(values: ScheduleLayers, zoneOffset: int)
    requires forall i :: 0 <= i < |values.restrictions| ==> ValidRestriction(values.restrictions[i])
    requires values.rotationVirtualStart.offset == zoneOffset && !values.everyday && |values.restrictions| > 0
    requires !IsRestrictionDay(values.restrictions, values.rotationVirtualStart.Date())
    ensures var r := AdjustedStart(values, zoneOffset);
      var d := values.rotationVirtualStart.Date();
      r.Ok? && d < r.value.start.Date() <= d + 6 &&
      forall x :: d <= x < r.value.start.Date() ==> !IsRestrictionDay(values.restrictions, x)
  {
    var rs, vs := values.restrictions, values.rotationVirtualStart;
    var k := DaysToRestrictionDay(rs, vs.Date());
    StartTimeKeepsDay(vs.AddDays(k), rs);
    NoEarlierRestrictionDay(rs, vs.Date());
  }

  /** The loop of `adjust_start_date`: a day at a time until a restriction day. */
  method AdjustStartDate(values: ScheduleLayers, zoneOffset: int) returns (r: Result<ScheduleLayers, LayerError>)
    requires forall i :: 0 <= i < |values.restrictions| ==> ValidRestriction(values.restrictions[i])
    ensures r == AdjustedStart(values, zoneOffset)
  {
    var rs, vs := values.restrictions, values.rotationVirtualStart;
    if |rs| == 0 {
      return Err(NoRestrictions);
    }
    if IsRestrictionDay(rs, vs.Date()) {
      var adjusted := GetStartTime(vs, zoneOffset, rs);
      return Ok(values.(start := adjusted, rotationVirtualStart := adjusted));
    } else if values.everyday {
      // get_start_time finds no restriction and fails on its attribute access
      return Err(NoMatchingRestriction);
    }
    var current := NextRestrictionDay(rs, vs);
    r := Ok(values.(start := GetStartTime(current, zoneOffset, rs)));
  }

  /** The `while` loop of `adjust_start_date`: one day at a time until a restriction day. */
  method NextRestrictionDay(rs: seq<Restriction>, vs: DateTime) returns (current: DateTime)
    requires |rs| > 0 && ValidRestriction(rs[0])
    ensures current == vs.AddDays(DaysToRestrictionDay(rs, vs.Date()))
  {
    ghost var days := DaysToRestrictionDay(rs, vs.Date());
    current := vs;
    ghost var k := 0;
    while !IsRestrictionDay(rs, current.Date())
      invariant 0 <= k && current.Date() == vs.Date() + k
      invariant current.TimeOfDay() == vs.TimeOfDay() && current.offset == vs.offset
      invariant k + DaysToRestrictionDay(rs, current.Date()) == days
      decreases DaysToRestrictionDay(rs, current.Date())
    {
      DaysToRestrictionDayStep(rs, current.Date());
      current := current.AddDays(1);
      k := k + 1;
    }
    SameDateAndClock(current, vs.AddDays(days));
  }

  /** `is_timezone_aware` tests the imported class `tzinfo`, not its argument. */
  function IsTimezoneAware(dateTime: Option<DateTime>): (aware: bool)
    ensures aware
  {
    true
  }

  /** `validate_start_and_end`, without the checks against the current time. */
  function ValidateStartAndEnd(values: ScheduleLayers): (r: Result<ScheduleLayers, LayerError>)
    ensures r.Ok? ==> r.value == values
    ensures r.Err? <==> values.end.Some? && values.end.value.Utc() < values.start.Utc()
    ensures r.Err? ==> r.error == EndBeforeStart
  {
    if !IsTimezoneAware(Some(values.start)) || !IsTimezoneAware(Some(values.rotationVirtualStart)) then Err(NotTimezoneAware)
    else if values.end.Some? && Before(values.end.value, values.start) then Err(EndBeforeStart)
    else Ok(values)
  }

  /** `set_rotation_turn_length`: the last restriction's kind decides; no restrictions, no change. */
  method SetRotationTurnLength(values: ScheduleLayers) returns (r: ScheduleLayers)
    ensures |values.restrictions| == 0 ==> r == values
    ensures |values.restrictions| > 0 ==>
      r == values.(rotationTurnLengthSeconds := TurnLength(values.restrictions[|values.restrictions| - 1].kind))
  {
    r := values;
    var rs := values.restrictions;
    var i := 0;
    while i < |rs|
      invariant 0 <= i <= |rs|
      invariant i == 0 ==> r == values
      invariant i > 0 ==> r == values.(rotationTurnLengthSeconds := TurnLength(rs[i - 1].kind))
    {
      match rs[i].kind {
        case DailyRestriction => r := r.(rotationTurnLengthSeconds := DailyTurnLength);
        case WeeklyRestriction => r := r.(rotationTurnLengthSeconds := WeeklyTurnLength);
      }
      i := i + 1;
    }
  }

  /** What every validated layer satisfies; the shift expansion relies on it. */
  predicate ValidLayer(layer: ScheduleLayers)
  {
    |layer.restrictions| > 0 && forall i :: 0 <= i < |layer.restrictions| ==> ValidRestriction(layer.restrictions[i])
  }

  /** The restrictions field validation sees: seven copies of the first one for an everyday layer. */
  function ExpandedRestrictions(input: ScheduleLayers): seq<Restriction>
  {
    if input.everyday && |input.restrictions| > 0 then
      seq(7, i => input.restrictions[0].(startDayOfWeek := i + 1))
    else input.restrictions
  }

  /** The values after both `pre` root validators, when they pass. */
  function Expanded(input: ScheduleLayers): ScheduleLayers
  {
    input.(users := Repeat(input.originalUsers, ShiftsPerUser(input.numShifts)),
           restrictions := ExpandedRestrictions(input))
  }

  /** The two `pre` root validators as one step: the user list, then the everyday expansion. */
  function PreRoot(input: ScheduleLayers): Result<ScheduleLayers, LayerError>
  {
    EverydayRestriction(input.(users := Repeat(input.originalUsers, ShiftsPerUser(input.numShifts))))
  }

  /** The `pre` root validators refuse only an everyday layer whose first restriction is missing or invalid. */
  lemma {:induction false} PreRootFacts(input: ScheduleLayers)
    ensures var r := PreRoot(input);
      (r.Ok? <==> (!input.everyday || (|input.restrictions| > 0 &&
                   forall i :: 0 <= i < 7 ==> ValidRestriction(ExpandedRestrictions(input)[i])))) &&
      (r.Ok? ==> r.value == Expanded(input))
  {
    var r := PreRoot(input);
    if input.everyday && |input.restrictions| > 0 {
      var rs := ExpandedRestrictions(input);
      assert ValidRestriction(rs[0]) <==> r.Ok?;
      if r.Ok? {
        assert r.value.restrictions == rs;
      }
    }
  }

  /** The two `pre` root validators: the user list, then the everyday expansion. */
  method PreRootValidators(input: ScheduleLayers) returns (r: Result<ScheduleLayers, LayerError>)
    ensures r == PreRoot(input)
    ensures r.Ok? ==> (r.value.numShifts == input.numShifts && r.value.originalUsers == input.originalUsers &&
      r.value.start == input.start && r.value.rotationVirtualStart == input.rotationVirtualStart &&
      r.value.end == input.end && r.value.rotationTurnLengthSeconds == input.rotationTurnLengthSeconds &&
      r.value.everyday == input.everyday)
    ensures r.Ok? ==> RepeatsEach(r.value.users, input.originalUsers, ShiftsPerUser(input.numShifts))
    ensures !input.everyday ==> r.Ok? && r.value.restrictions == input.restrictions
    ensures input.everyday && |input.restrictions| > 0 ==>
      (r.Ok? <==> input.restrictions[0].durationSeconds > 0 && ValidStartTime(input.restrictions[0].startTimeOfDay))
    ensures input.everyday && |input.restrictions| == 0 ==> r == Err(EverydayWithoutRestriction)
    ensures r.Ok? && input.everyday ==> (|input.restrictions| > 0 && |r.value.restrictions| == 7 &&
      forall i :: 0 <= i < 7 ==> r.value.restrictions[i] == input.restrictions[0].(startDayOfWeek := i + 1))
  {
    var v := GenerateUserList(input);
    r := EverydayRestriction(v);
  }

  /** The three post root validators in order, the first failure winning. */
  function PostRoot(v: ScheduleLayers, zoneOffset: int): Result<ScheduleLayers, LayerError>
    requires forall i :: 0 <= i < |v.restrictions| ==> ValidRestriction(v.restrictions[i])
  {
    match AdjustedStart(v, zoneOffset)
    case Err(e) => Err(e)
    case Ok(a) => CheckAndTurn(a)
  }

  /** The adjustment fails on an empty restriction list and changes nothing but the two starts. */
  lemma {:induction false} AdjustedStartKeeps(values: ScheduleLayers, zoneOffset: int)
    requires forall i :: 0 <= i < |values.restrictions| ==> ValidRestriction(values.restrictions[i])
    ensures var r := AdjustedStart(values, zoneOffset);
      r.Ok? ==> (|values.restrictions| > 0 &&
                 r.value == values.(start := r.value.start, rotationVirtualStart := r.value.rotationVirtualStart))
  {
  }

  /** The last two post root validators: the start and end check, then the turn length. */
  function CheckAndTurn(a: ScheduleLayers): Result<ScheduleLayers, LayerError>
  {
    match ValidateStartAndEnd(a)
    case Err(e) => Err(e)
    case Ok(c) =>
      var rs := c.restrictions;
      Ok(if |rs| == 0 then c else c.(rotationTurnLengthSeconds := TurnLength(rs[|rs| - 1].kind)))
  }

  /** Only the turn length changes, and it comes from the last restriction. */
  lemma {:induction false} CheckAndTurnKeeps(a: ScheduleLayers)
    requires |a.restrictions| > 0
    ensures var r := CheckAndTurn(a);
      r.Ok? ==> (r.value.restrictions == a.restrictions && r.value.users == a.users &&
        r.value.originalUsers == a.originalUsers && r.value.numShifts == a.numShifts && r.value.end == a.end &&
        r.value.start == a.start && r.value.rotationTurnLengthSeconds == TurnLength(a.restrictions[|a.restrictions| - 1].kind))
  {
  }

  lemma {:induction false} PostRootNoRestrictions(v: ScheduleLayers, zoneOffset: int)
    requires forall i :: 0 <= i < |v.restrictions| ==> ValidRestriction(v.restrictions[i])
    ensures |v.restrictions| == 0 ==> PostRoot(v, zoneOffset) == Err(NoRestrictions)
  {
    AdjustedStartFacts(v, zoneOffset);
  }

  /** A layer that passes keeps its users and restrictions and gets its turn length from the last restriction. */
  lemma {:induction false} PostRootKeeps(v: ScheduleLayers, zoneOffset: int)
    requires forall i :: 0 <= i < |v.restrictions| ==> ValidRestriction(v.restrictions[i])
    ensures var r := PostRoot(v, zoneOffset);
      r.Ok? ==> (r.value.restrictions == v.restrictions && r.value.users == v.users &&
        r.value.originalUsers == v.originalUsers && r.value.numShifts == v.numShifts && r.value.end == v.end &&
        ValidLayer(r.value) && r.value.rotationTurnLengthSeconds == TurnLength(v.restrictions[|v.restrictions| - 1].kind))
  {
    PostRootIff(v, zoneOffset);
  }

  /** A layer that passes does not end before it starts. */
  lemma {:induction false} PostRootEndAfterStart(v: ScheduleLayers, zoneOffset: int)
    requires forall i :: 0 <= i < |v.restrictions| ==> ValidRestriction(v.restrictions[i])
    ensures var r := PostRoot(v, zoneOffset);
      r.Ok? ==> !(r.value.end.Some? && Before(r.value.end.value, r.value.start))
  {
  }

  /** Read in the layer's own zone, the start of a layer that passes is a restriction day. */
  lemma {:induction false} PostRootStartOnRestrictionDay(v: ScheduleLayers, zoneOffset: int)
    requires forall i :: 0 <= i < |v.restrictions| ==> ValidRestriction(v.restrictions[i])
    ensures var r := PostRoot(v, zoneOffset);
      r.Ok? && v.rotationVirtualStart.offset == zoneOffset ==>
        r.value.start.offset == zoneOffset && IsRestrictionDay(v.restrictions, r.value.start.Date())
  {
    AdjustedStartFacts(v, zoneOffset);
  }

  /** The three post root validators, run on a layer whose fields validated. */
  method PostRootValidators(v: ScheduleLayers, zoneOffset: int) returns (r: Result<ScheduleLayers, LayerError>)
    requires forall i :: 0 <= i < |v.restrictions| ==> ValidRestriction(v.restrictions[i])
    ensures r == PostRoot(v, zoneOffset)
    ensures |v.restrictions| == 0 ==> r == Err(NoRestrictions)
    ensures r.Ok? ==> (r.value.restrictions == v.restrictions && r.value.users == v.users &&
      r.value.originalUsers == v.originalUsers && r.value.numShifts == v.numShifts && r.value.end == v.end &&
      ValidLayer(r.value) && r.value.rotationTurnLengthSeconds == TurnLength(v.restrictions[|v.restrictions| - 1].kind))
    ensures r.Ok? ==> !(r.value.end.Some? && Before(r.value.end.value, r.value.start))
    ensures r.Ok? && v.rotationVirtualStart.offset == zoneOffset ==>
      r.value.start.offset == zoneOffset && IsRestrictionDay(v.restrictions, r.value.start.Date())
  {
    var adjusted := AdjustStartDate(v, zoneOffset);
    if adjusted.Err? {
      r := Err(adjusted.error);
    } else {
      var checked := ValidateStartAndEnd(adjusted.value);
      if checked.Err? {
        r := Err(checked.error);
      } else {
        var turned := SetRotationTurnLength(checked.value);
        r := Ok(turned);
      }
    }
    PostRootNoRestrictions(v, zoneOffset);
    PostRootKeeps(v, zoneOffset);
    PostRootEndAfterStart(v, zoneOffset);
    PostRootStartOnRestrictionDay(v, zoneOffset);
  }

  /** Construction of a `ScheduleLayers` as one value: every validator in order; the first failure wins. */
  function Validated(input: ScheduleLayers, zoneOffset: int): Result<ScheduleLayers, LayerError>
  {
    match PreRoot(input)
    case Err(e) => Err(e)
    case Ok(p) =>
      match ValidateFields(p)
      case Err(e) => Err(e)
      case Ok(f) => PostRoot(f, zoneOffset)
  }

  /**
   * When a layer is accepted, read off its input: `num_shifts` is given, the
   * turn length is allowed, the restrictions after the everyday expansion are
   * there and valid, the start can be adjusted and the end is not before it.
   */
  predicate Accepted(input: ScheduleLayers, zoneOffset: int)
  {
    var v := Expanded(input);
    input.numShifts.Some? &&
    (input.rotationTurnLengthSeconds == DailyTurnLength || input.rotationTurnLengthSeconds == WeeklyTurnLength) &&
    |v.restrictions| > 0 &&
    (forall i :: 0 <= i < |v.restrictions| ==> ValidRestriction(v.restrictions[i])) &&
    AdjustedStart(v, zoneOffset).Ok? &&
    !(input.end.Some? && Before(input.end.value, AdjustedStart(v, zoneOffset).value.start))
  }

  /** The post root validators pass exactly when the start adjusts and the end is not before it. */
  lemma {:induction false} PostRootIff(v: ScheduleLayers, zoneOffset: int)
    requires forall i :: 0 <= i < |v.restrictions| ==> ValidRestriction(v.restrictions[i])
    ensures var r := PostRoot(v, zoneOffset);
      (r.Ok? <==> AdjustedStart(v, zoneOffset).Ok? &&
                  !(v.end.Some? && Before(v.end.value, AdjustedStart(v, zoneOffset).value.start))) &&
      (r.Ok? ==> var a := AdjustedStart(v, zoneOffset).value;
        r.value == v.(start := a.start, rotationVirtualStart := a.rotationVirtualStart,
          rotationTurnLengthSeconds := TurnLength(v.restrictions[|v.restrictions| - 1].kind)))
  {
    AdjustedStartKeeps(v, zoneOffset);
    var a := AdjustedStart(v, zoneOffset);
    if a.Ok? {
      assert PostRoot(v, zoneOffset) == CheckAndTurn(a.value);
      if !(v.end.Some? && Before(v.end.value, a.value.start)) {
        assert ValidateStartAndEnd(a.value) == Ok(a.value);
      }
    } else {
      assert PostRoot(v, zoneOffset).Err?;
    }
  }

  /**
   * A layer is accepted exactly when `Accepted` holds, and then it is the
   * expanded input with the adjusted starts and the last restriction's turn
   * length; nothing else changes.
   */
  lemma {:induction false} ValidatedIff(input: ScheduleLayers, zoneOffset: int)
    ensures var r := Validated(input, zoneOffset);
      (r.Ok? <==> Accepted(input, zoneOffset)) &&
      (r.Ok? ==> var v := Expanded(input); var a := AdjustedStart(v, zoneOffset).value;
        r.value == v.(start := a.start, rotationVirtualStart := a.rotationVirtualStart,
          rotationTurnLengthSeconds := TurnLength(v.restrictions[|v.restrictions| - 1].kind)))
  {
    PreRootFacts(input);
    var v := Expanded(input);
    if PreRoot(input).Ok? {
      if ValidateFields(v).Ok? {
        PostRootIff(v, zoneOffset);
        assert Validated(input, zoneOffset) == PostRoot(v, zoneOffset);
      } else {
        assert Validated(input, zoneOffset).Err?;
      }
    } else {
      assert Validated(input, zoneOffset).Err?;
      if |input.restrictions| > 0 {
        var i :| 0 <= i < 7 && !ValidRestriction(ExpandedRestrictions(input)[i]);
        assert !ValidRestriction(v.restrictions[i]);
      }
    }
  }

  /** Construction of a `ScheduleLayers`: every validator in order; the first failure wins. */
  method ValidateScheduleLayers(input: ScheduleLayers, zoneOffset: int) returns (r: Result<ScheduleLayers, LayerError>)
    ensures r == Validated(input, zoneOffset)
    ensures r.Ok? <==> Accepted(input, zoneOffset)
    ensures r.Ok? ==> var v := Expanded(input); var a := AdjustedStart(v, zoneOffset).value;
      r.value == v.(start := a.start, rotationVirtualStart := a.rotationVirtualStart,
        rotationTurnLengthSeconds := TurnLength(v.restrictions[|v.restrictions| - 1].kind))
    ensures r.Ok? ==> ValidLayer(r.value) && r.value.numShifts == input.numShifts && input.numShifts.Some?
    ensures r.Ok? ==> (r.value.originalUsers == input.originalUsers &&
      RepeatsEach(r.value.users, input.originalUsers, input.numShifts.value))
    ensures r.Ok? ==> (r.value.rotationTurnLengthSeconds ==
      TurnLength(r.value.restrictions[|r.value.restrictions| - 1].kind))
    ensures r.Ok? && !input.everyday ==> r.value.restrictions == input.restrictions
    ensures r.Ok? && input.everyday ==> (|input.restrictions| > 0 && |r.value.restrictions| == 7 &&
      forall i :: 0 <= i < 7 ==> r.value.restrictions[i] == input.restrictions[0].(startDayOfWeek := i + 1))
    ensures r.Ok? ==> !(r.value.end.Some? && Before(r.value.end.value, r.value.start))
    ensures r.Ok? && input.rotationVirtualStart.offset == zoneOffset ==>
      r.value.start.offset == zoneOffset && IsRestrictionDay(r.value.restrictions, r.value.start.Date())
    ensures input.everyday && |input.restrictions| == 0 ==> r == Err(EverydayWithoutRestriction)
    ensures !input.everyday && |input.restrictions| == 0 ==> r.Err?
    ensures input.numShifts.None? ==> r.Err?
    ensures !input.everyday && (exists i :: 0 <= i < |input.restrictions| && !ValidRestriction(input.restrictions[i])) ==> r.Err?
  {
    var pre := PreRootValidators(input);
    if pre.Err? {
      return Err(pre.error);
    }
    var fields := ValidateFields(pre.value);
    if fields.Err? {
      return Err(fields.error);
    }
    r := PostRootValidators(fields.value, zoneOffset);
    if r.Ok? {
      assert r.value.restrictions == fields.value.restrictions;
    }
    ValidatedIff(input, zoneOffset);
  }
}

/**
 * A schedule restriction, a weekly on-call window (schedules_ai.py,
 * class Restriction), with its field validators and the look-up of the first
 * restriction that falls on a given weekday.
 */
module Restrictions {
  import opened Wrappers
  import opened Text

  /** `daily_restriction` or `weekly_restriction`. */
  datatype Kind = DailyRestriction | WeeklyRestriction

  datatype Restriction = Restriction(
    kind: Kind,
    durationSeconds: int,
    startTimeOfDay: string,
    startDayOfWeek: int)

  datatype RestrictionError = InvalidTime | NonPositiveDuration | InvalidIsoWeekday

  predicate IsDigit(c: char)
  {
    '0' <= c <= '9'
  }

  predicate AllDigits(p: string)
  {
    forall i :: 0 <= i < |p| ==> IsDigit(p[i])
  }

  /** The decimal value of a string of ASCII digits. */
  function DigitsValue(p: string): (v: nat)
    requires AllDigits(p)
  {
    if |p| == 0 then 0
    else DigitsValue(p[..|p| - 1]) * 10 + (p[|p| - 1] as int - '0' as int)
  }

  /** One to two ASCII digits whose value is at most `max`. */
  predicate TimeField(p: string, max: nat)
  {
    1 <= |p| <= 2 && AllDigits(p) && DigitsValue(p) <= max
  }

  /**
   * The accepted `start_time_of_day` strings and the second of the day they
   * name: both `strptime(v, "%H:%M:%S")` and the field's pattern must accept.
   */
  function ParseTimeOfDay(s: string): (r: Option<int>)
    ensures r.Some? ==> 0 <= r.value < 86400
  {
    var parts := SplitOn(s, ':');
    if |parts| == 3 && TimeField(parts[0], 23) && TimeField(parts[1], 59) && TimeField(parts[2], 59)
    then Some(DigitsValue(parts[0]) * 3600 + DigitsValue(parts[1]) * 60 + DigitsValue(parts[2]))
    else None
  }

  // The three groups of ^([01]?[0-9]|2[0-3]):([0-5]?[0-9]):([0-5]?[0-9])$, read literally.
  predicate HourGroup(p: string)
  {
    || (|p| == 1 && IsDigit(p[0]))
    || (|p| == 2 && (p[0] == '0' || p[0] == '1') && IsDigit(p[1]))
    || (|p| == 2 && p[0] == '2' && '0' <= p[1] <= '3')
  }

  predicate MinuteGroup(p: string)
  {
    || (|p| == 1 && IsDigit(p[0]))
    || (|p| == 2 && '0' <= p[0] <= '5' && IsDigit(p[1]))
  }

  /** The time-of-day regular expression of the `start_time_of_day` field. */
  predicate MatchesTimePattern(s: string)
  {
    exists i, j :: 0 < i < j < |s| && s[i] == ':' && s[j] == ':' &&
      HourGroup(s[..i]) && MinuteGroup(s[i + 1..j]) && MinuteGroup(s[j + 1..])
  }

  /** The value of a one- or two-digit field, digit by digit. */
  lemma {:induction false} ShortDigitsValue(p: string)
    requires 1 <= |p| <= 2 && AllDigits(p)
    ensures |p| == 1 ==> DigitsValue(p) == p[0] as int - '0' as int
    ensures |p| == 2 ==> DigitsValue(p) == (p[0] as int - '0' as int) * 10 + (p[1] as int - '0' as int)
  {
    var first := p[..1];
    assert first[..0] == [];
    assert DigitsValue(first) == p[0] as int - '0' as int;
    if |p| == 2 {
      assert p[..|p| - 1] == first;
    } else {
      assert p[..0] == [];
    }
  }

  lemma {:induction false} HourGroupIsField(p: string)
    ensures HourGroup(p) <==> TimeField(p, 23)
  {
    if 1 <= |p| <= 2 && AllDigits(p) {
      ShortDigitsValue(p);
    }
  }

  lemma {:induction false} MinuteGroupIsField(p: string)
    ensures MinuteGroup(p) <==> TimeField(p, 59)
  {
    if 1 <= |p| <= 2 && AllDigits(p) {
      ShortDigitsValue(p);
    }
  }

  lemma {:induction false} JoinThree(a: string, b: string, c: string)
    ensures Join([a, b, c], ':') == a + [':'] + b + [':'] + c
  {
    assert [a, b, c][1..] == [b, c];
    assert [b, c][1..] == [c];
    assert Join([c], ':') == c;
    assert Join([b, c], ':') == b + [':'] + c;
  }

  lemma {:induction false} ParsedMatchesPattern(s: string)
    requires ParseTimeOfDay(s).Some?
    ensures MatchesTimePattern(s)
  {
    var parts := SplitOn(s, ':');
    JoinSplit(s, ':');
    var a, b, c := parts[0], parts[1], parts[2];
    assert parts == [a, b, c];
    JoinThree(a, b, c);
    HourGroupIsField(a);
    MinuteGroupIsField(b);
    MinuteGroupIsField(c);
    FieldsAt(a, b, c);
    var i, j := |a|, |a| + 1 + |b|;
    assert 0 < i < j < |s| && s[i] == ':' && s[j] == ':' &&
      HourGroup(s[..i]) && MinuteGroup(s[i + 1..j]) && MinuteGroup(s[j + 1..]);
  }

  /** Where the fields and the colons of `a:b:c` sit. */
  lemma {:induction false} FieldsAt(a: string, b: string, c: string)
    ensures var s, i, j := a + [':'] + b + [':'] + c, |a|, |a| + 1 + |b|;
      |s| == j + 1 + |c| && s[i] == ':' && s[j] == ':' && s[..i] == a && s[i + 1..j] == b && s[j + 1..] == c
  {
  }

  lemma {:induction false} ColonSplit(s: string, i: int, j: int)
    requires 0 < i < j < |s| && s[i] == ':' && s[j] == ':'
    ensures s == s[..i] + [':'] + s[i + 1..j] + [':'] + s[j + 1..]
  {
    assert s == s[..i] + s[i..];
    assert s[i..] == [':'] + s[i + 1..];
    assert s[i + 1..] == s[i + 1..j] + s[j..];
    assert s[j..] == [':'] + s[j + 1..];
  }

  lemma {:induction false} PatternParses(s: string)
    requires MatchesTimePattern(s)
    ensures ParseTimeOfDay(s).Some?
  {
    var i, j :| 0 < i < j < |s| && s[i] == ':' && s[j] == ':' &&
      HourGroup(s[..i]) && MinuteGroup(s[i + 1..j]) && MinuteGroup(s[j + 1..]);
    PatternParsesAt(s, i, j);
  }

  /** The three groups between the colons at `i` and `j` are the three parsed fields. */
  lemma {:induction false} PatternParsesAt(s: string, i: int, j: int)
    requires 0 < i < j < |s| && s[i] == ':' && s[j] == ':'
    requires HourGroup(s[..i]) && MinuteGroup(s[i + 1..j]) && MinuteGroup(s[j + 1..])
    ensures ParseTimeOfDay(s).Some?
  {
    var a, b, c := s[..i], s[i + 1..j], s[j + 1..];
    ColonSplit(s, i, j);
    HourGroupIsField(a);
    MinuteGroupIsField(b);
    MinuteGroupIsField(c);
    SplitThree(a, b, c);
  }

  /** Three colon-free fields joined by colons split back into those fields. */
  lemma {:induction false} SplitThree(a: string, b: string, c: string)
    requires AllDigits(a) && AllDigits(b) && AllDigits(c)
    ensures SplitOn(a + [':'] + b + [':'] + c, ':') == [a, b, c]
  {
    NoColonInField(a);
    NoColonInField(b);
    NoColonInField(c);
    JoinThree(a, b, c);
    SplitJoin([a, b, c], ':');
  }

  /** A time of day is accepted exactly when it matches the field's pattern. */
  lemma {:induction false} ParseAcceptsPattern(s: string)
    ensures ParseTimeOfDay(s).Some? <==> MatchesTimePattern(s)
  {
    if ParseTimeOfDay(s).Some? {
      ParsedMatchesPattern(s);
    }
    if MatchesTimePattern(s) {
      PatternParses(s);
    }
  }

  lemma {:induction false} NoColonInField(p: string)
    requires AllDigits(p)
    ensures ':' !in p
  {
  }

  function TwoDigits(n: nat): string
    requires n < 100
  {
    ['0' + (n / 10) as char, '0' + (n % 10) as char]
  }

  lemma {:induction false} TwoDigitsValue(n: nat)
    requires n < 100
    ensures AllDigits(TwoDigits(n)) && DigitsValue(TwoDigits(n)) == n
  {
    ShortDigitsValue(TwoDigits(n));
  }

  /** `HH:MM:SS` read back gives the second of the day it was written from. */
  lemma {:induction false} ParseFormatted(h: nat, m: nat, s: nat)
    requires h < 24 && m < 60 && s < 60
    ensures ParseTimeOfDay(TwoDigits(h) + ":" + TwoDigits(m) + ":" + TwoDigits(s)) == Some(h * 3600 + m * 60 + s)
  {
    var a, b, c := TwoDigits(h), TwoDigits(m), TwoDigits(s);
    TwoDigitsValue(h);
    TwoDigitsValue(m);
    TwoDigitsValue(s);
    NoColonInField(a);
    NoColonInField(b);
    NoColonInField(c);
    JoinThree(a, b, c);
    SplitJoin([a, b, c], ':');
    var text := a + [':'] + b + [':'] + c;
    assert SplitOn(text, ':') == [a, b, c];
    assert TimeField(a, 23) && TimeField(b, 59) && TimeField(c, 59);
    assert ParseTimeOfDay(text) == Some(h * 3600 + m * 60 + s);
  }

  /** `validate_start_time`: the time must parse. */
  predicate ValidStartTime(v: string)
  {
    ParseTimeOfDay(v).Some?
  }

  /** `validate_isoweekday`: 1 to 7 inclusive. */
  predicate ValidIsoWeekday(v: int)
  {
    1 <= v <= 7
  }

  /** Every field constraint of a restriction holds. */
  predicate ValidRestriction(r: Restriction)
  {
    r.durationSeconds > 0 && ValidStartTime(r.startTimeOfDay) && ValidIsoWeekday(r.startDayOfWeek)
  }

  /** Field validation of one restriction, checking fields in their declaration order. */
  function CheckRestriction(r: Restriction): (e: Option<RestrictionError>)
    ensures e.None? <==> ValidRestriction(r)
    ensures e == Some(NonPositiveDuration) <==> r.durationSeconds <= 0
    ensures e == Some(InvalidTime) <==> r.durationSeconds > 0 && !ValidStartTime(r.startTimeOfDay)
    ensures e == Some(InvalidIsoWeekday) <==>
      r.durationSeconds > 0 && ValidStartTime(r.startTimeOfDay) && !ValidIsoWeekday(r.startDayOfWeek)
  {
    if r.durationSeconds <= 0 then Some(NonPositiveDuration)
    else if !ValidStartTime(r.startTimeOfDay) then Some(InvalidTime)
    else if !ValidIsoWeekday(r.startDayOfWeek) then Some(InvalidIsoWeekday)
    else None
  }

  /** The first field error among a list of restrictions, in list order. */
  function CheckRestrictions(rs: seq<Restriction>): (e: Option<RestrictionError>)
    ensures e.None? <==> forall i :: 0 <= i < |rs| ==> ValidRestriction(rs[i])
    ensures e.Some? ==> exists i :: (0 <= i < |rs| && CheckRestriction(rs[i]) == e &&
      forall j :: 0 <= j < i ==> ValidRestriction(rs[j]))
  {
    if |rs| == 0 then None
    else if CheckRestriction(rs[0]).Some? then CheckRestriction(rs[0])
    else
      var e := CheckRestrictions(rs[1..]);
      assert forall i :: 1 <= i < |rs| ==> rs[i] == rs[1..][i - 1];
      if e.Some? then
        assert exists i :: (1 <= i < |rs| && CheckRestriction(rs[i]) == e &&
          forall j :: 0 <= j < i ==> ValidRestriction(rs[j])) by {
          var k :| 0 <= k < |rs| - 1 && CheckRestriction(rs[1..][k]) == e &&
            forall j :: 0 <= j < k ==> ValidRestriction(rs[1..][j]);
          assert CheckRestriction(rs[k + 1]) == e;
        }
        e
      else e
  }

  /** The second of the day a validated restriction starts at. */
  function StartSecond(r: Restriction): (t: int)
    requires ValidRestriction(r)
    ensures 0 <= t < 86400
  {
    ParseTimeOfDay(r.startTimeOfDay).value
  }

  /** Is some restriction on ISO weekday `day`? */
  predicate HasDay(rs: seq<Restriction>, day: int)
  {
    exists i :: 0 <= i < |rs| && rs[i].startDayOfWeek == day
  }

  /** `get_matching_restriction`: the first restriction, in list order, on weekday `day`. */
  function GetMatchingRestriction(rs: seq<Restriction>, day: int): (r: Option<Restriction>)
    ensures r.None? <==> !HasDay(rs, day)
    ensures r.Some? ==> exists i :: (0 <= i < |rs| && rs[i] == r.value && rs[i].startDayOfWeek == day &&
      forall j :: 0 <= j < i ==> rs[j].startDayOfWeek != day)
  {
    if |rs| == 0 then None
    else if rs[0].startDayOfWeek == day then Some(rs[0])
    else
      var r := GetMatchingRestriction(rs[1..], day);
      assert forall i :: 1 <= i < |rs| ==> rs[i] == rs[1..][i - 1];
      if r.Some? then
        assert exists i :: (1 <= i < |rs| && rs[i] == r.value && rs[i].startDayOfWeek == day &&
          forall j :: 0 <= j < i ==> rs[j].startDayOfWeek != day) by {
          var k :| 0 <= k < |rs| - 1 && rs[1..][k] == r.value && rs[1..][k].startDayOfWeek == day &&
            forall j :: 0 <= j < k ==> rs[1..][j].startDayOfWeek != day;
          assert rs[k + 1] == r.value;
        }
        r
      else r
  }
}

/**
 * `Config.validate_timezone` (schedules_ai.py): the schedule's time zone name is
 * normalised (each `/` segment title-cased, spaces turned into `_`) and then
 * looked up in pytz and in PagerDuty's list of zones, both supplied here as
 * predicates. Case mapping covers the ASCII letters only.
 */
module Timezones {
  import opened Wrappers
  import opened Text

  predicate IsUpper(c: char) { 'A' <= c <= 'Z' }
  predicate IsLower(c: char) { 'a' <= c <= 'z' }

  /** A cased character: `str.title` starts a new word after any character that is not one. */
  predicate IsCased(c: char) { IsUpper(c) || IsLower(c) }

  function ToUpper(c: char): (u: char)
    ensures IsCased(u) <==> IsCased(c)
    ensures IsCased(c) ==> IsUpper(u)
    ensures !IsCased(c) ==> u == c
  {
    if IsLower(c) then (c as int - 32) as char else c
  }

  function ToLower(c: char): (l: char)
    ensures IsCased(l) <==> IsCased(c)
    ensures IsCased(c) ==> IsLower(l)
    ensures !IsCased(c) ==> l == c
  {
    if IsUpper(c) then (c as int + 32) as char else c
  }

  /** Case of one character under `str.title`, given whether the character before it is cased. */
  function TitleChar(c: char, afterCased: bool): char
  {
    if afterCased then ToLower(c) else ToUpper(c)
  }

  /** Is the character before position `i` of `s` cased (`prev` standing in before the start)? */
  predicate CasedBefore(s: string, i: int, prev: bool)
    requires 0 <= i < |s|
  {
    if i == 0 then prev else IsCased(s[i - 1])
  }

  /** `str.title` continued after a character whose casedness is `prev`. */
  function TitleFrom(s: string, prev: bool): (t: string)
    ensures |t| == |s|
    ensures forall i :: 0 <= i < |s| ==> t[i] == TitleChar(s[i], CasedBefore(s, i, prev))
    decreases |s|
  {
    if |s| == 0 then ""
    else
      var rest := TitleFrom(s[1..], IsCased(s[0]));
      assert forall i :: 1 <= i < |s| ==> CasedBefore(s[1..], i - 1, IsCased(s[0])) == CasedBefore(s, i, prev);
      [TitleChar(s[0], prev)] + rest
  }

  /** `s.title()`: the first cased character of every word upper-case, the others lower-case. */
  function Title(s: string): (t: string)
    ensures |t| == |s|
    ensures forall i :: 0 <= i < |s| ==> (IsCased(t[i]) <==> IsCased(s[i]))
    ensures forall i :: 0 <= i < |s| && IsCased(s[i]) ==>
      (IsUpper(t[i]) <==> (i == 0 || !IsCased(s[i - 1])))
    ensures forall i :: 0 <= i < |s| && !IsCased(s[i]) ==> t[i] == s[i]
  {
    TitleFrom(s, false)
  }

  /** `s.replace(" ", "_")`. */
  function ReplaceSpaces(s: string): string
  {
    seq(|s|, i requires 0 <= i < |s| => if s[i] == ' ' then '_' else s[i])
  }

  /** Each segment title-cased on its own. */
  function TitleEach(parts: seq<string>): (ts: seq<string>)
    ensures |ts| == |parts| && forall i :: 0 <= i < |parts| ==> ts[i] == Title(parts[i])
  {
    seq(|parts|, i requires 0 <= i < |parts| => Title(parts[i]))
  }

  /** The normalisation `validate_timezone` applies before any lookup. */
  function Normalise(v: string): string
  {
    ReplaceSpaces(Join(TitleEach(SplitOn(v, '/')), '/'))
  }

  /** Indexing `a + "/" + b`. */
  lemma SlashAt(a: string, b: string, i: int)
    requires 0 <= i < |a| + 1 + |b|
    ensures (a + ['/'] + b)[i] == if i < |a| then a[i] else if i == |a| then '/' else b[i - |a| - 1]
  {
  }

  /** Title-casing a name with a `/` in it: the part after the `/` starts a new word. */
  lemma TitleAroundSlash(a: string, b: string)
    ensures Title(a + ['/'] + b) == Title(a) + ['/'] + Title(b)
  {
    var s := a + ['/'] + b;
    var l, r := Title(s), Title(a) + ['/'] + Title(b);
    forall i | 0 <= i < |s|
      ensures l[i] == r[i]
    {
      SlashAt(a, b, i);
      SlashAt(Title(a), Title(b), i);
      if i > 0 {
        SlashAt(a, b, i - 1);
      }
      if i < |a| {
        assert CasedBefore(s, i, false) == CasedBefore(a, i, false);
      } else if i > |a| {
        assert CasedBefore(s, i, false) == CasedBefore(b, i - |a| - 1, false);
      }
    }
    assert l == r;
  }

  lemma {:induction false} TitleOfJoin(parts: seq<string>)
    ensures Title(Join(parts, '/')) == Join(TitleEach(parts), '/')
    decreases |parts|
  {
    if |parts| > 1 {
      TitleOfJoin(parts[1..]);
      TitleAroundSlash(parts[0], Join(parts[1..], '/'));
      assert TitleEach(parts)[1..] == TitleEach(parts[1..]);
    }
  }

  /** Title-casing segment by segment is title-casing the whole name. */
  lemma {:induction false} SegmentsTitleLikeWhole(v: string)
    ensures Join(TitleEach(SplitOn(v, '/')), '/') == Title(v)
  {
    JoinSplit(v, '/');
    TitleOfJoin(SplitOn(v, '/'));
  }

  /**
   * The normalised name has no spaces, keeps its length and every `/` where it
   * was, and its cased characters are cased as `str.title` demands.
   */
  lemma {:induction false} NormaliseShape(v: string)
    ensures |Normalise(v)| == |v|
    ensures ' ' !in Normalise(v)
    ensures forall i :: 0 <= i < |v| ==> (Normalise(v)[i] == '/' <==> v[i] == '/')
    ensures forall i :: 0 <= i < |v| ==> (Normalise(v)[i] == '_' <==> v[i] == ' ' || v[i] == '_')
    ensures forall i :: 0 <= i < |v| && IsCased(v[i]) ==>
      IsCased(Normalise(v)[i]) && (IsUpper(Normalise(v)[i]) <==> (i == 0 || !IsCased(v[i - 1])))
  {
    SegmentsTitleLikeWhole(v);
  }

  /** The number of `/` separators is unchanged. */
  lemma {:induction false} NormaliseKeepsSegments(v: string)
    ensures |SplitOn(Normalise(v), '/')| == |SplitOn(v, '/')|
  {
    NormaliseShape(v);
    SameSlashesSameSplit(v, Normalise(v));
  }

  lemma {:induction false} SameSlashesSameSplit(a: string, b: string)
    requires |a| == |b|
    requires forall i :: 0 <= i < |a| ==> (a[i] == '/' <==> b[i] == '/')
    ensures |SplitOn(a, '/')| == |SplitOn(b, '/')|
    decreases |a|
  {
    if |a| > 0 {
      assert forall i :: 0 <= i < |a| - 1 ==> a[1..][i] == a[i + 1] && b[1..][i] == b[i + 1];
      SameSlashesSameSplit(a[1..], b[1..]);
    }
  }

  /** Normalising a normalised name changes nothing. */
  lemma {:induction false} NormaliseIdempotent(v: string)
    ensures Normalise(Normalise(v)) == Normalise(v)
  {
    var n := Normalise(v);
    SegmentsTitleLikeWhole(v);
    SegmentsTitleLikeWhole(n);
    var t := Title(v);
    assert n == ReplaceSpaces(t);
    forall i | 0 <= i < |n|
      ensures Normalise(n)[i] == n[i]
    {
      assert i > 0 ==> (IsCased(n[i - 1]) <==> IsCased(v[i - 1]));
    }
  }

  datatype TimezoneError =
    | UnknownToPytz(name: string)
    | NotSupportedByPagerDuty(name: string)

  /**
   * `validate_timezone`: the normalised name is returned when pytz knows it and
   * PagerDuty supports it; pytz is asked first.
   */
  function ValidateTimezone(v: string, pytzKnows: string -> bool, pagerDutySupports: string -> bool): (r: Result<string, TimezoneError>)
    ensures r.Ok? <==> pytzKnows(Normalise(v)) && pagerDutySupports(Normalise(v))
    ensures r.Ok? ==> r.value == Normalise(v) && ' ' !in r.value
    ensures !pytzKnows(Normalise(v)) ==> r == Err(UnknownToPytz(Normalise(v)))
    ensures pytzKnows(Normalise(v)) && !pagerDutySupports(Normalise(v)) ==> r == Err(NotSupportedByPagerDuty(Normalise(v)))
  {
    NormaliseShape(v);
    var n := Normalise(v);
    if !pytzKnows(n) then Err(UnknownToPytz(n))
    else if !pagerDutySupports(n) then Err(NotSupportedByPagerDuty(n))
    else Ok(n)
  }
}

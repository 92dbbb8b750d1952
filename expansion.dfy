/**
 * `transform_schedule_to_df` (app.py): every validated layer is walked day by
 * day for 52 weeks from its start date, one shift is listed for each
 * restriction of the walked weekday, users are handed out in turn from the
 * layer's expanded user list, and the rows of all layers are sorted by start.
 */
module Expansion {
  import opened Wrappers
  import opened Dates
  import opened Restrictions
  import opened Layers

  /** One table row: `user`, `shift_start_datetime`, `shift_end_datetime`, `shift_duration`. */
  datatype Shift = Shift(user: string, start: DateTime, end: DateTime, durationSeconds: int)

  /** A walked date together with a restriction that falls on it. */
  datatype Slot = Slot(date: int, restriction: Restriction)

  /** `timedelta(weeks=52)`: the last walked date is this many days after the first. */
  const LastWalkedDay := 7 * 52

  // ---------------------------------------------------------------------------
  // The shifts of one layer, in the order the walk lists them
  // ---------------------------------------------------------------------------

  /** The restrictions of `rs` that fall on `date`, in declaration order. */
  function SlotsOn(rs: seq<Restriction>, date: int): seq<Slot>
    decreases |rs|
  {
    if |rs| == 0 then []
    else
      var last := rs[|rs| - 1];
      SlotsOn(rs[..|rs| - 1], date) + (if last.startDayOfWeek == IsoWeekday(date) then [Slot(date, last)] else [])
  }

  /** The slots of the first `n` walked dates from `d0`, date by date. */
  function Slots(rs: seq<Restriction>, d0: int, n: nat): seq<Slot>
    decreases n
  {
    if n == 0 then [] else Slots(rs, d0, n - 1) + SlotsOn(rs, d0 + n - 1)
  }

  /** A date's slots are exactly its matching restrictions. */
  lemma {:induction false} SlotsOnMatch(rs: seq<Restriction>, date: int)
    ensures forall k :: 0 <= k < |SlotsOn(rs, date)| ==> (SlotsOn(rs, date)[k].date == date &&
      SlotsOn(rs, date)[k].restriction in rs && SlotsOn(rs, date)[k].restriction.startDayOfWeek == IsoWeekday(date))
    ensures forall i :: 0 <= i < |rs| && rs[i].startDayOfWeek == IsoWeekday(date) ==> Slot(date, rs[i]) in SlotsOn(rs, date)
    decreases |rs|
  {
    if |rs| > 0 {
      var init := rs[..|rs| - 1];
      SlotsOnMatch(init, date);
      assert forall i :: 0 <= i < |init| ==> init[i] == rs[i];
    }
  }

  /** Every slot of the walk lies in the walked range, on its restriction's weekday. */
  lemma {:induction false} SlotsInRange(rs: seq<Restriction>, d0: int, n: nat)
    ensures forall k :: 0 <= k < |Slots(rs, d0, n)| ==> (var s := Slots(rs, d0, n)[k];
      d0 <= s.date < d0 + n && s.restriction in rs && s.restriction.startDayOfWeek == IsoWeekday(s.date))
    decreases n
  {
    if n > 0 {
      SlotsInRange(rs, d0, n - 1);
      SlotsOnMatch(rs, d0 + n - 1);
    }
  }

  /** Number of slots whose restriction is a daily one: the advances they cause. */
  function DailyCount(s: seq<Slot>): nat
  {
    if |s| == 0 then 0
    else DailyCount(s[..|s| - 1]) + (if s[|s| - 1].restriction.kind == DailyRestriction then 1 else 0)
  }

  /** Number of Sundays among the dates `a` .. `b - 1`. */
  function SundaysBetween(a: int, b: int): nat
    decreases b - a
  {
    if b <= a then 0 else SundaysBetween(a, b - 1) + (if IsoWeekday(b - 1) == 7 then 1 else 0)
  }

  /** The walk's weekly advance looks at the last restriction only (the loop variable left over). */
  predicate WeeklyAdvance(layer: ScheduleLayers)
    requires |layer.restrictions| > 0
  {
    layer.restrictions[|layer.restrictions| - 1].kind == WeeklyRestriction
  }

  /** How often `user_index` has moved on once the slots `s` are listed and the walk is at `date`. */
  function Advances(layer: ScheduleLayers, s: seq<Slot>, date: int): nat
    requires |layer.restrictions| > 0
  {
    DailyCount(s) + (if WeeklyAdvance(layer) then SundaysBetween(layer.start.Date(), date) else 0)
  }

  predicate SlotsValid(s: seq<Slot>)
  {
    forall k :: 0 <= k < |s| ==> ValidRestriction(s[k].restriction)
  }

  /** The row listed for slot `j` of `s`. */
  function RowAt(layer: ScheduleLayers, s: seq<Slot>, j: int): (row: Shift)
    requires |layer.restrictions| > 0 && |layer.users| > 0
    requires 0 <= j < |s| && ValidRestriction(s[j].restriction)
    ensures row.start.Date() == s[j].date && row.start.offset == layer.start.offset
    ensures row.start.TimeOfDay() == StartSecond(s[j].restriction)
    ensures row.end.Utc() - row.start.Utc() == row.durationSeconds == s[j].restriction.durationSeconds
  {
    var r := s[j].restriction;
    var start := Combine(s[j].date, StartSecond(r), layer.start.offset);
    var user := layer.users[Advances(layer, s[..j], s[j].date) % |layer.users|];
    Shift(user.userName, start, start.AddSeconds(r.durationSeconds), r.durationSeconds)
  }

  /** The rows listed for the slots `s`, slot after slot. */
  function RowsFor(layer: ScheduleLayers, s: seq<Slot>): (rows: seq<Shift>)
    requires |layer.restrictions| > 0 && |layer.users| > 0 && SlotsValid(s)
    ensures |rows| == |s| && forall j :: 0 <= j < |s| ==> rows[j] == RowAt(layer, s, j)
  {
    seq(|s|, j requires 0 <= j < |s| => RowAt(layer, s, j))
  }

  /** Every slot of the walk over `layer`. */
  function LayerSlots(layer: ScheduleLayers): seq<Slot>
  {
    Slots(layer.restrictions, layer.start.Date(), LastWalkedDay + 1)
  }

  /** The slots of any number of walked dates carry valid restrictions. */
  lemma {:induction false} SlotsValidFor(layer: ScheduleLayers, n: nat)
    requires ValidLayer(layer)
    ensures SlotsValid(Slots(layer.restrictions, layer.start.Date(), n))
  {
    var s, rs := Slots(layer.restrictions, layer.start.Date(), n), layer.restrictions;
    SlotsInRange(rs, layer.start.Date(), n);
    forall k | 0 <= k < |s|
      ensures ValidRestriction(s[k].restriction)
    {
      var i :| 0 <= i < |rs| && rs[i] == s[k].restriction;
      assert ValidRestriction(rs[i]);
    }
  }

  /** The rows one layer contributes, in the order the walk appends them. */
  function LayerRows(layer: ScheduleLayers): seq<Shift>
    requires ValidLayer(layer) && |layer.users| > 0
  {
    SlotsValidFor(layer, LastWalkedDay + 1);
    RowsFor(layer, LayerSlots(layer))
  }

  // ---------------------------------------------------------------------------
  // Steps of the walk
  // ---------------------------------------------------------------------------

  /** Listing one more slot: earlier rows stay, the new row goes to the current user. */
  lemma {:induction false} EmitStep(layer: ScheduleLayers, s: seq<Slot>, slot: Slot)
    requires |layer.restrictions| > 0 && |layer.users| > 0
    requires SlotsValid(s) && ValidRestriction(slot.restriction)
    ensures SlotsValid(s + [slot])
    ensures RowsFor(layer, s + [slot]) == RowsFor(layer, s) + [RowAt(layer, s + [slot], |s|)]
    ensures var start := Combine(slot.date, StartSecond(slot.restriction), layer.start.offset);
      RowAt(layer, s + [slot], |s|) == Shift(layer.users[Advances(layer, s, slot.date) % |layer.users|].userName,
        start, start.AddSeconds(slot.restriction.durationSeconds), slot.restriction.durationSeconds)
    ensures forall date :: (Advances(layer, s + [slot], date) ==
      Advances(layer, s, date) + (if slot.restriction.kind == DailyRestriction then 1 else 0))
  {
    var t := s + [slot];
    assert t[..|s|] == s;
    forall j | 0 <= j < |s|
      ensures RowAt(layer, t, j) == RowAt(layer, s, j)
    {
      assert t[..j] == s[..j];
    }
    assert RowsFor(layer, t) == RowsFor(layer, s) + [RowAt(layer, t, |s|)];
  }

  /** The walk's state after listing `slot` is the model's state for one more slot. */
  lemma {:induction false} EmitKeepsWalk(layer: ScheduleLayers, s: seq<Slot>, slot: Slot, data: seq<Shift>, userIndex: int)
    requires |layer.restrictions| > 0 && |layer.users| > 0
    requires SlotsValid(s) && ValidRestriction(slot.restriction)
    requires data == RowsFor(layer, s) && userIndex == Advances(layer, s, slot.date) % |layer.users|
    ensures SlotsValid(s + [slot]) && 0 <= userIndex < |layer.users|
    ensures var start := Combine(slot.date, StartSecond(slot.restriction), layer.start.offset);
      var end := start.AddSeconds(slot.restriction.durationSeconds);
      data + [Shift(layer.users[userIndex].userName, start, end, end.Utc() - start.Utc())] == RowsFor(layer, s + [slot])
    ensures (if slot.restriction.kind == DailyRestriction then (userIndex + 1) % |layer.users| else userIndex) ==
      Advances(layer, s + [slot], slot.date) % |layer.users|
  {
    EmitStep(layer, s, slot);
    ModSucc(Advances(layer, s, slot.date), |layer.users|);
  }

  lemma {:induction false} ModSucc(a: int, n: int)
    requires n > 0
    ensures (a % n + 1) % n == (a + 1) % n
  {
    var q, r := a / n, a % n;
    assert a == q * n + r;
    if r + 1 == n {
      DivAffine(1, n, 0);
      assert (r + 1) % n == 0;
      DivAffine(q + 1, n, 0);
      assert a + 1 == (q + 1) * n + 0;
      assert (a + 1) % n == (a + 1) - (q + 1) * n;
    } else {
      DivAffine(0, n, r + 1);
      assert (r + 1) % n == r + 1;
      DivAffine(q, n, r + 1);
      assert a + 1 == q * n + (r + 1);
      assert (a + 1) % n == (a + 1) - q * n;
    }
  }

  lemma {:induction false} SlotsOnPrefix(rs: seq<Restriction>, i: int, date: int)
    requires 0 <= i < |rs|
    ensures SlotsOn(rs[..i + 1], date) ==
      SlotsOn(rs[..i], date) + (if rs[i].startDayOfWeek == IsoWeekday(date) then [Slot(date, rs[i])] else [])
  {
    assert rs[..i + 1][..i] == rs[..i];
  }

  // ---------------------------------------------------------------------------
  // The walk
  // ---------------------------------------------------------------------------

  /**
   * The body of the `if` for a restriction of the walked weekday: its row goes
   * to the current user, who then moves on if the restriction is a daily one.
   */
  method ListShift(layer: ScheduleLayers, ghost s: seq<Slot>, slot: Slot, data: seq<Shift>, userIndex: int)
    returns (data': seq<Shift>, userIndex': int)
    requires |layer.restrictions| > 0 && |layer.users| > 0
    requires SlotsValid(s) && ValidRestriction(slot.restriction)
    requires data == RowsFor(layer, s) && userIndex == Advances(layer, s, slot.date) % |layer.users|
    ensures SlotsValid(s + [slot])
    ensures data' == RowsFor(layer, s + [slot])
    ensures userIndex' == Advances(layer, s + [slot], slot.date) % |layer.users|
  {
    var users, restriction := layer.users, slot.restriction;
    EmitKeepsWalk(layer, s, slot, data, userIndex);
    var start := Combine(slot.date, StartSecond(restriction), layer.start.offset);
    var end := start.AddSeconds(restriction.durationSeconds);
    data' := data + [Shift(users[userIndex].userName, start, end, end.Utc() - start.Utc())];
    userIndex' := userIndex;
    if restriction.kind == DailyRestriction {
      userIndex' := (userIndex + 1) % |users|;
    }
  }

  /**
   * The `for restriction in restrictions` loop on one walked date: a row for
   * each restriction of that weekday, the user moving on after a daily one.
   * `crashed` is the exception indexing an empty user list raises.
   */
  method ListDate(layer: ScheduleLayers, date: int, ghost done: seq<Slot>, data: seq<Shift>, userIndex: int)
    returns (crashed: bool, data': seq<Shift>, userIndex': int)
    requires ValidLayer(layer) && Listed(layer, date, done, 0, done, data, userIndex)
    ensures crashed ==> |layer.users| == 0
    ensures !crashed ==> Listed(layer, date, done, |layer.restrictions|, done + SlotsOn(layer.restrictions, date), data', userIndex')
  {
    crashed, data', userIndex' := false, data, userIndex;
    ghost var listed := done;
    var i := 0;
    while i < |layer.restrictions|
      invariant 0 <= i <= |layer.restrictions| && Listed(layer, date, done, i, listed, data', userIndex')
    {
      crashed, listed, data', userIndex' := ListRestriction(layer, date, done, i, listed, data', userIndex');
      if crashed {
        return;
      }
      i := i + 1;
    }
    assert layer.restrictions[..|layer.restrictions|] == layer.restrictions;
  }

  /** One pass of the restriction loop: restriction `i` on the walked date. */
  method ListRestriction(layer: ScheduleLayers, date: int, ghost done: seq<Slot>, i: int, ghost listed: seq<Slot>,
                         data: seq<Shift>, userIndex: int)
    returns (crashed: bool, ghost listed': seq<Slot>, data': seq<Shift>, userIndex': int)
    requires ValidLayer(layer) && 0 <= i < |layer.restrictions|
    requires Listed(layer, date, done, i, listed, data, userIndex)
    ensures crashed ==> |layer.users| == 0
    ensures !crashed ==> Listed(layer, date, done, i + 1, listed', data', userIndex')
  {
    var users, restriction := layer.users, layer.restrictions[i];
    crashed, listed', data', userIndex' := false, listed, data, userIndex;
    if IsoWeekday(date) == restriction.startDayOfWeek {
      if |users| == 0 {
        return true, listed', data', userIndex';
      }
      var slot := Slot(date, restriction);
      data', userIndex' := ListShift(layer, listed, slot, data, userIndex);
      ListedTake(layer, date, done, i, listed, data', userIndex');
      listed' := listed + [slot];
    } else {
      ListedSkip(layer, date, done, i, listed, data, userIndex);
    }
  }

  /** The state of the restriction loop after the first `i` restrictions on `date`. */
  ghost predicate Listed(layer: ScheduleLayers, date: int, done: seq<Slot>, i: int, listed: seq<Slot>, data: seq<Shift>, userIndex: int)
    requires ValidLayer(layer) && 0 <= i <= |layer.restrictions|
  {
    listed == done + SlotsOn(layer.restrictions[..i], date) && SlotsValid(listed) &&
    (|layer.users| > 0 ==> (data == RowsFor(layer, listed) && userIndex == Advances(layer, listed, date) % |layer.users|)) &&
    (|layer.users| == 0 ==> listed == [])
  }

  /** A restriction of another weekday lists nothing. */
  lemma ListedSkip(layer: ScheduleLayers, date: int, done: seq<Slot>, i: int, listed: seq<Slot>, data: seq<Shift>, userIndex: int)
    requires ValidLayer(layer) && 0 <= i < |layer.restrictions|
    requires Listed(layer, date, done, i, listed, data, userIndex)
    requires layer.restrictions[i].startDayOfWeek != IsoWeekday(date)
    ensures Listed(layer, date, done, i + 1, listed, data, userIndex)
  {
    SlotsOnPrefix(layer.restrictions, i, date);
  }

  /** Listing restriction `i` on its weekday adds its slot to the listed ones. */
  lemma ListedTake(layer: ScheduleLayers, date: int, done: seq<Slot>, i: int, listed: seq<Slot>, data: seq<Shift>, userIndex: int)
    requires ValidLayer(layer) && 0 <= i < |layer.restrictions| && |layer.users| > 0
    requires listed == done + SlotsOn(layer.restrictions[..i], date)
    requires layer.restrictions[i].startDayOfWeek == IsoWeekday(date)
    requires SlotsValid(listed + [Slot(date, layer.restrictions[i])])
    requires data == RowsFor(layer, listed + [Slot(date, layer.restrictions[i])])
    requires userIndex == Advances(layer, listed + [Slot(date, layer.restrictions[i])], date) % |layer.users|
    ensures Listed(layer, date, done, i + 1, listed + [Slot(date, layer.restrictions[i])], data, userIndex)
  {
    SlotsOnPrefix(layer.restrictions, i, date);
  }

  /**
   * The walk's state once `n` dates from the layer's start are walked: the
   * rows and the user index are those of the slots listed so far.
   */
  ghost predicate Walked(layer: ScheduleLayers, n: nat, data: seq<Shift>, userIndex: int)
    requires ValidLayer(layer)
  {
    var done := Slots(layer.restrictions, layer.start.Date(), n);
    SlotsValidFor(layer, n);
    (|layer.users| > 0 ==> (data == RowsFor(layer, done) &&
      userIndex == Advances(layer, done, layer.start.Date() + n) % |layer.users|)) &&
    (|layer.users| == 0 ==> done == [])
  }

  /** Before the first date nothing is listed and nobody has moved on. */
  lemma WalkedStart(layer: ScheduleLayers)
    requires ValidLayer(layer)
    ensures Walked(layer, 0, [], 0)
  {
    if |layer.users| > 0 {
      assert RowsFor(layer, []) == [];
    }
  }

  /** What one pass of the loop body establishes is the walk's state for one more date. */
  lemma WalkedStep(layer: ScheduleLayers, n: nat, date: int, listed: seq<Slot>, data: seq<Shift>, userIndex: int)
    requires ValidLayer(layer) && date == layer.start.Date() + n
    requires listed == Slots(layer.restrictions, layer.start.Date(), n) + SlotsOn(layer.restrictions, date)
    requires SlotsValid(listed) &&
      (|layer.users| > 0 ==> (data == RowsFor(layer, listed) && userIndex == Advances(layer, listed, date + 1) % |layer.users|)) &&
      (|layer.users| == 0 ==> listed == [])
    ensures Walked(layer, n + 1, data, userIndex)
  {
    SlotsStep(layer.restrictions, layer.start.Date(), n, date);
  }

  /** After the last walked date the rows are the layer's rows, and some row was listed. */
  lemma WalkedAll(layer: ScheduleLayers, n: nat, data: seq<Shift>, userIndex: int)
    requires ValidLayer(layer) && n == LastWalkedDay + 1
    requires Walked(layer, n, data, userIndex)
    ensures |layer.users| > 0 && data == LayerRows(layer)
  {
    SlotsNonEmpty(layer);
  }

  /**
   * One pass of the walk's loop body: the rows of `date`, then the weekly
   * advance if `date` is a Sunday.
   */
  method WalkDate(layer: ScheduleLayers, date: int, ghost n: nat, data: seq<Shift>, userIndex: int)
    returns (crashed: bool, data': seq<Shift>, userIndex': int)
    requires ValidLayer(layer) && date == layer.start.Date() + n
    requires Walked(layer, n, data, userIndex)
    ensures crashed ==> |layer.users| == 0
    ensures !crashed ==> Walked(layer, n + 1, data', userIndex')
  {
    var users, rs := layer.users, layer.restrictions;
    ghost var done := Slots(rs, layer.start.Date(), n);
    SlotsValidFor(layer, n);
    assert rs[..0] == [] && done + SlotsOn(rs[..0], date) == done;
    crashed, data', userIndex' := ListDate(layer, date, done, data, userIndex);
    if crashed {
      return;
    }
    ghost var listed := done + SlotsOn(rs, date);
    ghost var before := userIndex';
    if rs[|rs| - 1].kind == WeeklyRestriction && IsoWeekday(date) == 7 {
      if |users| == 0 {
        return true, data', userIndex';
      }
      userIndex' := (userIndex' + 1) % |users|;
    }
    if |users| > 0 {
      AdvanceIndex(layer, listed, date, before, |users|);
    }
    WalkedStep(layer, n, date, listed, data', userIndex');
  }

  /**
   * The `while current_date <= end_date` loop for one layer. `None` is the
   * exception an empty user list raises: indexing it, or advancing modulo zero.
   */
  method ExpandLayer(layer: ScheduleLayers) returns (rows: Option<seq<Shift>>)
    requires ValidLayer(layer)
    ensures rows.Some? <==> |layer.users| > 0
    ensures rows.Some? ==> rows.value == LayerRows(layer)
  {
    var d0 := layer.start.Date();
    var current := d0;
    var endDate := d0 + LastWalkedDay;
    var userIndex := 0;
    var data: seq<Shift> := [];
    ghost var n: nat := 0;
    WalkedStart(layer);
    while current <= endDate
      invariant current == d0 + n && n <= LastWalkedDay + 1
      invariant Walked(layer, n, data, userIndex)
    {
      var crashed;
      crashed, data, userIndex := WalkDate(layer, current, n, data, userIndex);
      if crashed {
        return None;
      }
      current, n := current + 1, n + 1;
    }
    WalkedAll(layer, n, data, userIndex);
    rows := Some(data);
    assert rows.value == LayerRows(layer) && |layer.users| > 0;
  }

  /** Walking one more date appends that date's slots. */
  lemma SlotsStep(rs: seq<Restriction>, d0: int, n: nat, date: int)
    requires date == d0 + n
    ensures Slots(rs, d0, n + 1) == Slots(rs, d0, n) + SlotsOn(rs, date)
  {
  }

  /** Moving to the next date adds the weekly advance of a walked Sunday. */
  lemma {:induction false} WalkDayStep(layer: ScheduleLayers, s: seq<Slot>, date: int)
    requires |layer.restrictions| > 0 && date >= layer.start.Date()
    ensures Advances(layer, s, date + 1) ==
      Advances(layer, s, date) + (if WeeklyAdvance(layer) && IsoWeekday(date) == 7 then 1 else 0)
  {
  }

  /** `user_index` after the date `date`, from its value before the weekly advance. */
  lemma AdvanceIndex(layer: ScheduleLayers, s: seq<Slot>, date: int, u: int, m: int)
    requires |layer.restrictions| > 0 && date >= layer.start.Date() && m > 0
    requires u == Advances(layer, s, date) % m
    ensures (if WeeklyAdvance(layer) && IsoWeekday(date) == 7 then (u + 1) % m else u) == Advances(layer, s, date + 1) % m
  {
    WalkDayStep(layer, s, date);
    if WeeklyAdvance(layer) && IsoWeekday(date) == 7 {
      ModSucc(Advances(layer, s, date), m);
    }
  }

  /** Every layer lists at least one shift: within seven days some restriction's weekday comes up. */
  lemma {:induction false} SlotsNonEmpty(layer: ScheduleLayers)
    requires ValidLayer(layer)
    ensures |LayerSlots(layer)| > 0
  {
    WeekHasSlot(layer.restrictions, layer.start.Date(), LastWalkedDay + 1);
  }

  /** Any walk of seven dates or more meets a restriction's weekday. */
  lemma {:induction false} WeekHasSlot(rs: seq<Restriction>, d0: int, n: nat)
    requires |rs| > 0 && ValidRestriction(rs[0]) && n >= 7
    ensures |Slots(rs, d0, n)| > 0
  {
    var k := DaysToRestrictionDay(rs, d0);
    var i :| 0 <= i < |rs| && rs[i].startDayOfWeek == IsoWeekday(d0 + k);
    SlotsOnNonEmpty(rs, d0 + k, i);
    SlotsCoverDay(rs, d0, n, k);
  }

  /** A date on some restriction's weekday has a slot. */
  lemma {:induction false} SlotsOnNonEmpty(rs: seq<Restriction>, date: int, i: int)
    requires 0 <= i < |rs| && rs[i].startDayOfWeek == IsoWeekday(date)
    ensures |SlotsOn(rs, date)| > 0
    decreases |rs|
  {
    if i < |rs| - 1 {
      SlotsOnNonEmpty(rs[..|rs| - 1], date, i);
    }
  }

  /** A walk has at least as many slots as any date it walks. */
  lemma {:induction false} SlotsCoverDay(rs: seq<Restriction>, d0: int, n: nat, k: nat)
    requires k < n
    ensures |Slots(rs, d0, n)| >= |SlotsOn(rs, d0 + k)|
    decreases n
  {
    if k < n - 1 {
      SlotsCoverDay(rs, d0, n - 1, k);
    }
  }

  /** The slots of a walked date are among the walk's slots. */
  lemma {:induction false} SlotsIncludeDay(rs: seq<Restriction>, d0: int, n: nat, k: nat)
    requires k < n
    ensures forall x :: x in SlotsOn(rs, d0 + k) ==> x in Slots(rs, d0, n)
    decreases n
  {
    if k < n - 1 {
      SlotsIncludeDay(rs, d0, n - 1, k);
    }
  }

  // ---------------------------------------------------------------------------
  // The whole table
  // ---------------------------------------------------------------------------

  /** The rows of all layers, layer after layer. */
  function AllRows(layers: seq<ScheduleLayers>): seq<Shift>
    requires forall i :: 0 <= i < |layers| ==> ValidLayer(layers[i]) && |layers[i].users| > 0
    decreases |layers|
  {
    if |layers| == 0 then [] else AllRows(layers[..|layers| - 1]) + LayerRows(layers[|layers| - 1])
  }

  predicate SortedByStart(rows: seq<Shift>)
  {
    forall a, b :: 0 <= a < b < |rows| ==> rows[a].start.Utc() <= rows[b].start.Utc()
  }

  /** `row` placed before the first row that starts later. */
  function Insert(row: Shift, sorted: seq<Shift>): (r: seq<Shift>)
    requires SortedByStart(sorted)
    ensures SortedByStart(r) && multiset(r) == multiset(sorted) + multiset{row}
    decreases |sorted|
  {
    if |sorted| == 0 then [row]
    else if row.start.Utc() <= sorted[0].start.Utc() then
      ConsSorted(row, sorted);
      [row] + sorted
    else
      var rest := Insert(row, sorted[1..]);
      NoEarlierThanHead(sorted, row, rest);
      ConsSorted(sorted[0], rest);
      assert sorted == [sorted[0]] + sorted[1..];
      [sorted[0]] + rest
  }

  /** A row no later than every row of a sorted list may go in front of it. */
  lemma ConsSorted(x: Shift, rest: seq<Shift>)
    requires SortedByStart(rest)
    requires |rest| > 0 ==> x.start.Utc() <= rest[0].start.Utc()
    ensures SortedByStart([x] + rest)
  {
  }

  /** The rows after the head of a sorted list, with a later row put in, still start no earlier than the head. */
  lemma NoEarlierThanHead(sorted: seq<Shift>, row: Shift, rest: seq<Shift>)
    requires SortedByStart(sorted) && |sorted| > 0 && sorted[0].start.Utc() < row.start.Utc()
    requires multiset(rest) == multiset(sorted[1..]) + multiset{row}
    ensures |rest| > 0 ==> sorted[0].start.Utc() <= rest[0].start.Utc()
  {
    if |rest| > 0 {
      assert rest[0] in multiset(rest);
      if rest[0] != row {
        assert rest[0] in sorted[1..];
      }
    }
  }

  /**
   * `df.sort_values(by=["shift_start_datetime"])`: ascending by instant. pandas'
   * default sort is not stable, so nothing is promised about rows that start together.
   */
  function SortByStart(rows: seq<Shift>): (r: seq<Shift>)
    ensures SortedByStart(r) && multiset(r) == multiset(rows)
    decreases |rows|
  {
    if |rows| == 0 then []
    else
      assert rows == rows[..|rows| - 1] + [rows[|rows| - 1]];
      Insert(rows[|rows| - 1], SortByStart(rows[..|rows| - 1]))
  }

  /**
   * `transform_schedule_to_df`: every layer's rows, sorted by start; no rows, an
   * empty table. `None` is the exception a layer without users raises.
   */
  method TransformScheduleToDf(layers: seq<ScheduleLayers>) returns (table: Option<seq<Shift>>)
    requires forall i :: 0 <= i < |layers| ==> ValidLayer(layers[i])
    ensures table.Some? <==> forall i :: 0 <= i < |layers| ==> |layers[i].users| > 0
    ensures table.Some? ==> SortedByStart(table.value) && multiset(table.value) == multiset(AllRows(layers))
  {
    var data: seq<Shift> := [];
    for k := 0 to |layers|
      invariant forall i :: 0 <= i < k ==> |layers[i].users| > 0
      invariant data == AllRows(layers[..k])
    {
      var rows := ExpandLayer(layers[k]);
      if rows.None? {
        return None;
      }
      assert layers[..k + 1][..k] == layers[..k];
      data := data + rows.value;
    }
    assert layers[..|layers|] == layers;
    if |data| == 0 {
      return Some([]);
    }
    table := Some(SortByStart(data));
  }
}

module ExpansionFacts {
  import opened Dates
  import opened Restrictions
  import opened Layers
  import opened Expansion

  /** Every listed shift lies in the walked range, on its restriction's weekday, at its time. */
  lemma {:induction false} ShiftInWalk(layer: ScheduleLayers, j: int)
    requires ValidLayer(layer) && |layer.users| > 0
    requires 0 <= j < |LayerRows(layer)|
    ensures var row, slot := LayerRows(layer)[j], LayerSlots(layer)[j];
      layer.start.Date() <= row.start.Date() <= layer.start.Date() + LastWalkedDay &&
      slot.restriction in layer.restrictions &&
      IsoWeekday(row.start.Date()) == slot.restriction.startDayOfWeek &&
      row.start.TimeOfDay() == StartSecond(slot.restriction) &&
      row.start.offset == layer.start.offset &&
      row.end.Utc() - row.start.Utc() == row.durationSeconds == slot.restriction.durationSeconds
  {
    SlotsValidFor(layer, LastWalkedDay + 1);
    SlotsInRange(layer.restrictions, layer.start.Date(), LastWalkedDay + 1);
  }

  /** Every walked date gets a shift for each of its restrictions. */
  lemma {:induction false} WalkCoversMatches(layer: ScheduleLayers, date: int, i: int)
    requires layer.start.Date() <= date <= layer.start.Date() + LastWalkedDay
    requires 0 <= i < |layer.restrictions| && layer.restrictions[i].startDayOfWeek == IsoWeekday(date)
    ensures Slot(date, layer.restrictions[i]) in LayerSlots(layer)
  {
    var d0 := layer.start.Date();
    SlotsOnMatch(layer.restrictions, date);
    SlotsIncludeDay(layer.restrictions, d0, LastWalkedDay + 1, date - d0);
  }

  /** Before sorting, the rows come date by date. */
  lemma {:induction false} SlotsByDate(rs: seq<Restriction>, d0: int, n: nat, a: int, b: int)
    requires 0 <= a < b < |Slots(rs, d0, n)|
    ensures Slots(rs, d0, n)[a].date <= Slots(rs, d0, n)[b].date
    decreases n
  {
    var prev := Slots(rs, d0, n - 1);
    SlotsInRange(rs, d0, n - 1);
    SlotsOnMatch(rs, d0 + n - 1);
    if b < |prev| {
      SlotsByDate(rs, d0, n - 1, a, b);
    } else if a < |prev| {
      assert Slots(rs, d0, n)[a] == prev[a];
    }
  }

  /** Daily slots only: every slot listed so far moved the user on. */
  lemma {:induction false} AllDailyCount(s: seq<Slot>)
    requires forall k :: 0 <= k < |s| ==> s[k].restriction.kind == DailyRestriction
    ensures DailyCount(s) == |s|
    decreases |s|
  {
    if |s| > 0 {
      AllDailyCount(s[..|s| - 1]);
    }
  }

  predicate AllOfKind(rs: seq<Restriction>, kind: Kind)
  {
    forall i :: 0 <= i < |rs| ==> rs[i].kind == kind
  }

  /** A daily layer hands the `j`-th shift to `users[j % len(users)]`. */
  lemma {:induction false} DailyRotation(layer: ScheduleLayers, j: int)
    requires ValidLayer(layer) && |layer.users| > 0 && AllOfKind(layer.restrictions, DailyRestriction)
    requires 0 <= j < |LayerRows(layer)|
    ensures LayerRows(layer)[j].user == layer.users[j % |layer.users|].userName
  {
    var s := LayerSlots(layer);
    SlotsInRange(layer.restrictions, layer.start.Date(), LastWalkedDay + 1);
    assert forall k :: 0 <= k < j ==> s[..j][k] == s[k];
    AllDailyCount(s[..j]);
  }

  lemma {:induction false} ModThenDiv(j: int, m: int, n: int)
    requires j >= 0 && m > 0 && n > 0
    ensures (j % (m * n)) / n == (j / n) % m
  {
    var q, r := j / n, j % n;
    var a, b := q / m, q % m;
    assert j == q * n + r;
    assert q == a * m + b;
    assert j == a * (m * n) + (b * n + r);
    assert 0 <= b * n + r < m * n by {
      MulLess(b, m - 1, n);
      assert (m - 1) * n + n == m * n;
    }
    DivAffine(a, m * n, b * n + r);
    assert j % (m * n) == b * n + r;
    DivAffine(b, n, r);
  }

  lemma {:induction false} MulLess(b: int, c: int, n: int)
    requires 0 <= b <= c && n > 0
    ensures 0 <= b * n <= c * n
  {
    assert c * n == b * n + (c - b) * n;
  }

  /**
   * With `generate_user_list`'s expanded list, a daily layer gives each original
   * user `num_shifts` consecutive shifts, in turn.
   */
  lemma {:induction false} DailyRotationRepeats(layer: ScheduleLayers, n: int, j: int)
    requires ValidLayer(layer) && AllOfKind(layer.restrictions, DailyRestriction)
    requires n > 0 && |layer.originalUsers| > 0 && RepeatsEach(layer.users, layer.originalUsers, n)
    requires 0 <= j < |LayerRows(layer)|
    ensures LayerRows(layer)[j].user == layer.originalUsers[(j / n) % |layer.originalUsers|].userName
  {
    DailyRotation(layer, j);
    ModThenDiv(j, |layer.originalUsers|, n);
  }

  /** A weekly layer's user depends only on how many Sundays the walk passed before the shift. */
  lemma {:induction false} WeeklyRotation(layer: ScheduleLayers, j: int)
    requires ValidLayer(layer) && |layer.users| > 0 && AllOfKind(layer.restrictions, WeeklyRestriction)
    requires 0 <= j < |LayerRows(layer)|
    ensures LayerRows(layer)[j].user ==
      layer.users[SundaysBetween(layer.start.Date(), LayerRows(layer)[j].start.Date()) % |layer.users|].userName
  {
    var s := LayerSlots(layer);
    SlotsInRange(layer.restrictions, layer.start.Date(), LastWalkedDay + 1);
    assert forall k :: 0 <= k < j ==> s[..j][k] == s[k];
    NoDailyCount(s[..j]);
  }

  lemma {:induction false} NoDailyCount(s: seq<Slot>)
    requires forall k :: 0 <= k < |s| ==> s[k].restriction.kind == WeeklyRestriction
    ensures DailyCount(s) == 0
    decreases |s|
  {
    if |s| > 0 {
      NoDailyCount(s[..|s| - 1]);
    }
  }

  /** The Monday-to-Sunday week of an ordinal (ordinal 1 is a Monday). */
  function Week(date: int): int
  {
    (date - 1) / 7
  }

  lemma {:induction false} NoSundayBefore(a: int, b: int, x: int)
    requires a <= x < b && Week(a) == Week(b)
    ensures IsoWeekday(x) != 7
  {
  }

  /** Within one Monday-to-Sunday week the walk passes no Sunday before the last day. */
  lemma {:induction false} SameWeekSameSundays(d0: int, a: int, b: int)
    requires d0 <= a <= b && Week(a) == Week(b)
    ensures SundaysBetween(d0, a) == SundaysBetween(d0, b)
    decreases b - a
  {
    if a < b {
      assert Week(a) <= Week(b - 1) <= Week(b);
      SameWeekSameSundays(d0, a, b - 1);
      NoSundayBefore(a, b, b - 1);
    }
  }

  /** Sundays counted from `d0` split at any later date. */
  lemma {:induction false} SundaysSplit(d0: int, a: int, b: int)
    requires d0 <= a <= b
    ensures SundaysBetween(d0, b) == SundaysBetween(d0, a) + SundaysBetween(a, b)
    decreases b - a
  {
    if a < b {
      SundaysSplit(d0, a, b - 1);
    }
  }

  lemma {:induction false} WeekdayAfter(a: int, i: int)
    requires 0 <= i < 7
    ensures IsoWeekday(a + i) == (IsoWeekday(a) - 1 + i) % 7 + 1
  {
    var q, r := (a + 6) / 7, (a + 6) % 7;
    assert a + i + 6 == 7 * q + (r + i);
    if r + i < 7 {
      DivAffine(q, 7, r + i);
    } else {
      DivAffine(q + 1, 7, r + i - 7);
      assert a + i + 6 == (q + 1) * 7 + (r + i - 7);
    }
  }

  /** Any seven consecutive dates hold exactly one Sunday. */
  lemma {:induction false} WeekHasOneSunday(a: int)
    ensures SundaysBetween(a, a + 7) == 1
  {
    var w := IsoWeekday(a);
    WeekdayAfter(a, 1);
    WeekdayAfter(a, 2);
    WeekdayAfter(a, 3);
    WeekdayAfter(a, 4);
    WeekdayAfter(a, 5);
    WeekdayAfter(a, 6);
    assert SundaysBetween(a, a + 1) == (if w == 7 then 1 else 0);
    assert SundaysBetween(a, a + 2) == SundaysBetween(a, a + 1) + (if w == 6 then 1 else 0);
    assert SundaysBetween(a, a + 3) == SundaysBetween(a, a + 2) + (if w == 5 then 1 else 0);
    assert SundaysBetween(a, a + 4) == SundaysBetween(a, a + 3) + (if w == 4 then 1 else 0);
    assert SundaysBetween(a, a + 5) == SundaysBetween(a, a + 4) + (if w == 3 then 1 else 0);
    assert SundaysBetween(a, a + 6) == SundaysBetween(a, a + 5) + (if w == 2 then 1 else 0);
    assert SundaysBetween(a, a + 7) == SundaysBetween(a, a + 6) + (if w == 1 then 1 else 0);
  }

  /** Seven days on, exactly one more Sunday has been passed. */
  lemma {:induction false} NextWeekOneSunday(d0: int, a: int)
    requires d0 <= a
    ensures SundaysBetween(d0, a + 7) == SundaysBetween(d0, a) + 1
  {
    SundaysSplit(d0, a, a + 7);
    WeekHasOneSunday(a);
  }

  /**
   * A weekly layer: shifts in the same Monday-to-Sunday week share a user, and
   * the shift a week later goes to the next user in turn.
   */
  lemma {:induction false} WeeklySameWeek(layer: ScheduleLayers, j: int, k: int)
    requires ValidLayer(layer) && |layer.users| > 0 && AllOfKind(layer.restrictions, WeeklyRestriction)
    requires 0 <= j < |LayerRows(layer)| && 0 <= k < |LayerRows(layer)|
    requires Week(LayerRows(layer)[j].start.Date()) == Week(LayerRows(layer)[k].start.Date())
    ensures LayerRows(layer)[j].user == LayerRows(layer)[k].user
  {
    var rows, d0 := LayerRows(layer), layer.start.Date();
    WeeklyRotation(layer, j);
    WeeklyRotation(layer, k);
    ShiftInWalk(layer, j);
    ShiftInWalk(layer, k);
    var a, b := rows[j].start.Date(), rows[k].start.Date();
    if a <= b {
      SameWeekSameSundays(d0, a, b);
    } else {
      SameWeekSameSundays(d0, b, a);
    }
  }

  lemma {:induction false} WeeklyNextWeek(layer: ScheduleLayers, j: int, k: int)
    requires ValidLayer(layer) && |layer.users| > 0 && AllOfKind(layer.restrictions, WeeklyRestriction)
    requires 0 <= j < |LayerRows(layer)| && 0 <= k < |LayerRows(layer)|
    requires LayerRows(layer)[k].start.Date() == LayerRows(layer)[j].start.Date() + 7
    ensures var u := SundaysBetween(layer.start.Date(), LayerRows(layer)[j].start.Date()) % |layer.users|;
      LayerRows(layer)[j].user == layer.users[u].userName &&
      LayerRows(layer)[k].user == layer.users[(u + 1) % |layer.users|].userName
  {
    var rows, d0 := LayerRows(layer), layer.start.Date();
    WeeklyRotation(layer, j);
    WeeklyRotation(layer, k);
    ShiftInWalk(layer, j);
    var c := SundaysBetween(d0, rows[j].start.Date());
    NextWeekOneSunday(d0, rows[j].start.Date());
    ModSucc(c, |layer.users|);
  }

  /** One user on the list takes every shift. */
  lemma {:induction false} SingleUserTakesAll(layer: ScheduleLayers, j: int)
    requires ValidLayer(layer) && |layer.users| == 1
    requires 0 <= j < |LayerRows(layer)|
    ensures LayerRows(layer)[j].user == layer.users[0].userName
  {
  }

  /** The table is empty exactly when there are no layers: each layer lists at least one shift. */
  lemma {:induction false} EmptyTableNoLayers(layers: seq<ScheduleLayers>)
    requires forall i :: 0 <= i < |layers| ==> ValidLayer(layers[i]) && |layers[i].users| > 0
    ensures |AllRows(layers)| == 0 <==> |layers| == 0
  {
    if |layers| > 0 {
      SlotsNonEmpty(layers[|layers| - 1]);
    }
  }
}

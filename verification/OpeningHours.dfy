/**
 Opening hours on local wall-clock time. Days are numbered from a Monday and a time of
 day counts ticks since midnight; a slot that starts after it ends runs past midnight.
 */
module OpeningHours {
  import opened Wrappers

  const TICKS_PER_DAY: int := 86_400_000_000

  datatype Slot = Slot(weekday: int, start: int, end: int, closed: bool, effectiveDate: Option<int>)

  function Weekday(day: int): int {
    day % 7
  }

  predicate Listed(slot: Slot, weekday: int, day: int) {
    slot.weekday == weekday && (slot.effectiveDate.None? || slot.effectiveDate == Some(day))
  }

  /** The slots that count on a date. */
  function ListHours(slots: seq<Slot>, weekday: int, day: int): seq<Slot> {
    if slots == [] then []
    else (if Listed(slots[0], weekday, day) then [slots[0]] else []) + ListHours(slots[1..], weekday, day)
  }

  predicate ClosedFor(slots: seq<Slot>, day: int) {
    exists s | s in slots :: s.effectiveDate == Some(day) && s.closed
  }

  predicate OpenToday(slots: seq<Slot>, time: int) {
    exists s | s in slots :: !s.closed && if s.start <= s.end then s.start <= time < s.end else time >= s.start
  }

  predicate OpenSinceYesterday(slots: seq<Slot>, time: int) {
    exists s | s in slots :: !s.closed && s.start > s.end && time < s.end
  }

  predicate IsOpen(slots: seq<Slot>, day: int, time: int) {
    var today := ListHours(slots, Weekday(day), day);
    var yesterday := ListHours(slots, (Weekday(day) - 1) % 7, day - 1);
    if ClosedFor(today, day) then false
    else if OpenToday(today, time) then true
    else OpenSinceYesterday(yesterday, time)
  }

  // ---------- slots as intervals of absolute time ----------

  /** The slot, taken on a date, is the interval from its start to its end, the next day's end if it starts after it. */
  predicate Covers(slot: Slot, day: int, instant: int) {
    && slot.weekday == day % 7 && (slot.effectiveDate.None? || slot.effectiveDate.value == day) && !slot.closed
    && day * TICKS_PER_DAY + slot.start <= instant
    && instant < day * TICKS_PER_DAY + slot.end + if slot.start <= slot.end then 0 else TICKS_PER_DAY
  }

  ghost predicate Covered(slots: seq<Slot>, instant: int) {
    exists slot, day :: slot in slots && Covers(slot, day, instant)
  }

  /** A dated row closes the date. */
  ghost predicate ClosedOn(slots: seq<Slot>, day: int) {
    exists slot :: slot in slots && slot.weekday == day % 7 && slot.effectiveDate == Some(day) && slot.closed
  }

  ghost predicate TimesOfDay(slots: seq<Slot>) {
    forall s :: s in slots ==> 0 <= s.start < TICKS_PER_DAY && 0 <= s.end < TICKS_PER_DAY
  }

  lemma {:induction false} ListHoursMembers(slots: seq<Slot>, weekday: int, day: int)
    ensures forall s :: s in ListHours(slots, weekday, day)
                   <==> s in slots && s.weekday == weekday && (s.effectiveDate.None? || s.effectiveDate.value == day)
  {
    if slots != [] {
      ListHoursMembers(slots[1..], weekday, day);
      assert slots == [slots[0]] + slots[1..];
    }
  }

  /** The weekday before Monday is Sunday. */
  lemma PreviousWeekday(day: int)
    ensures (Weekday(day) - 1) % 7 == Weekday(day - 1)
  {
    if day % 7 == 0 {
      assert (day - 1) % 7 == 6;
    } else {
      assert (day - 1) % 7 == day % 7 - 1;
    }
  }

  /** Only today's and yesterday's slots can reach an instant of today. */
  lemma OnlyTwoDaysMatter(slot: Slot, e: int, day: int, time: int)
    requires 0 <= slot.start < TICKS_PER_DAY && 0 <= slot.end < TICKS_PER_DAY && 0 <= time < TICKS_PER_DAY
    requires Covers(slot, e, day * TICKS_PER_DAY + time)
    ensures e == day || (e == day - 1 && slot.start > slot.end)
    ensures e == day ==> if slot.start <= slot.end then slot.start <= time < slot.end else time >= slot.start
    ensures e == day - 1 ==> time < slot.end
  {
  }

  /**
   On a date without a dated closure the branch is open exactly when some slot of some
   day, over all days, covers the instant; on a date with one it is closed.
   */
  lemma OpenIffCovered(slots: seq<Slot>, day: int, time: int)
    requires TimesOfDay(slots) && 0 <= time < TICKS_PER_DAY
    ensures IsOpen(slots, day, time) <==> !ClosedOn(slots, day) && Covered(slots, day * TICKS_PER_DAY + time)
  {
    var instant := day * TICKS_PER_DAY + time;
    var today := ListHours(slots, Weekday(day), day);
    var yesterday := ListHours(slots, (Weekday(day) - 1) % 7, day - 1);
    PreviousWeekday(day);
    ListHoursMembers(slots, Weekday(day), day);
    ListHoursMembers(slots, Weekday(day - 1), day - 1);
    if OpenToday(today, time) {
      var s :| s in today && !s.closed && if s.start <= s.end then s.start <= time < s.end else time >= s.start;
      assert Covers(s, day, instant);
    }
    if OpenSinceYesterday(yesterday, time) {
      var s :| s in yesterday && !s.closed && s.start > s.end && time < s.end;
      assert Covers(s, day - 1, instant);
    }
    if Covered(slots, instant) {
      var s, e :| s in slots && Covers(s, e, instant);
      OnlyTwoDaysMatter(s, e, day, time);
      assert if e == day then s in today else s in yesterday;
    }
  }

  /** A slot that is neither for this date nor for the night before does not matter, open or closed. */
  lemma OtherDatesDoNotMatter(slots: seq<Slot>, s: Slot, day: int, time: int)
    requires TimesOfDay([s] + slots) && 0 <= time < TICKS_PER_DAY
    requires s.effectiveDate.Some? && s.effectiveDate.value != day && (s.start > s.end ==> s.effectiveDate.value != day - 1)
    ensures IsOpen([s] + slots, day, time) == IsOpen(slots, day, time)
  {
    var instant := day * TICKS_PER_DAY + time;
    assert forall x :: x in slots ==> x in [s] + slots;
    OpenIffCovered([s] + slots, day, time);
    OpenIffCovered(slots, day, time);
    if Covered([s] + slots, instant) {
      var x, e :| x in [s] + slots && Covers(x, e, instant);
      OnlyTwoDaysMatter(x, e, day, time);
      assert x in slots && Covers(x, e, instant);
    }
    if Covered(slots, instant) {
      var x, e :| x in slots && Covers(x, e, instant);
      assert x in [s] + slots && Covers(x, e, instant);
    }
    if ClosedOn([s] + slots, day) {
      var x :| x in [s] + slots && x.weekday == day % 7 && x.effectiveDate == Some(day) && x.closed;
      assert x in slots;
    }
    if ClosedOn(slots, day) {
      var x :| x in slots && x.weekday == day % 7 && x.effectiveDate == Some(day) && x.closed;
      assert x in [s] + slots;
    }
  }

  // ---------- a closed day's night ----------

  /** Taken with every date's own closure, a slot counts unless the date it starts on is closed. */
  ghost predicate CoveredByOpenDay(slots: seq<Slot>, instant: int) {
    exists slot, day :: slot in slots && Covers(slot, day, instant) && !ClosedOn(slots, day)
  }

  /** The instant is reached by a slot of the given date. */
  ghost predicate ReachedFrom(slots: seq<Slot>, day: int, instant: int) {
    exists slot :: slot in slots && Covers(slot, day, instant)
  }

  /**
   A closure is looked up on the date of the instant, not on the date a night slot began:
   the two readings agree unless yesterday's night reaches the instant and either today
   alone is closed, or yesterday alone is and nothing of today reaches it.
   */
  lemma ClosureReadingsAgreeIff(slots: seq<Slot>, day: int, time: int)
    requires TimesOfDay(slots) && 0 <= time < TICKS_PER_DAY
    ensures (IsOpen(slots, day, time) <==> CoveredByOpenDay(slots, day * TICKS_PER_DAY + time))
       <==> !(ReachedFrom(slots, day - 1, day * TICKS_PER_DAY + time)
              && if ClosedOn(slots, day) then !ClosedOn(slots, day - 1)
                 else ClosedOn(slots, day - 1) && !ReachedFrom(slots, day, day * TICKS_PER_DAY + time))
  {
    var instant := day * TICKS_PER_DAY + time;
    OpenIffCovered(slots, day, time);
    forall s, e | s in slots && Covers(s, e, instant) ensures e == day || e == day - 1 {
      OnlyTwoDaysMatter(s, e, day, time);
    }
    assert Covered(slots, instant) <==> ReachedFrom(slots, day, instant) || ReachedFrom(slots, day - 1, instant);
    assert CoveredByOpenDay(slots, instant)
      <==> (ReachedFrom(slots, day, instant) && !ClosedOn(slots, day)) || (ReachedFrom(slots, day - 1, instant) && !ClosedOn(slots, day - 1));
  }

  const TICKS_PER_HOUR: int := 3_600_000_000

  const MondayNight: Slot := Slot(0, 22 * TICKS_PER_HOUR, 2 * TICKS_PER_HOUR, false, None)

  /**
   Monday is day 7. When that Monday is closed its night still counts as open at one
   in the morning; when the Tuesday is closed, Monday's night stops at midnight.
   */
  lemma NightOfAClosedMonday()
    ensures var slots := [MondayNight, Slot(0, 0, 0, true, Some(7))];
            TimesOfDay(slots) && IsOpen(slots, 8, TICKS_PER_HOUR) && !CoveredByOpenDay(slots, 8 * TICKS_PER_DAY + TICKS_PER_HOUR)
    ensures var slots := [MondayNight, Slot(1, 0, 0, true, Some(8))];
            TimesOfDay(slots) && !IsOpen(slots, 8, TICKS_PER_HOUR) && CoveredByOpenDay(slots, 8 * TICKS_PER_DAY + TICKS_PER_HOUR)
  {
    var instant := 8 * TICKS_PER_DAY + TICKS_PER_HOUR;
    var monday, tuesday := Slot(0, 0, 0, true, Some(7)), Slot(1, 0, 0, true, Some(8));
    var first, second := [MondayNight, monday], [MondayNight, tuesday];
    assert Covers(MondayNight, 7, instant);
    assert first[0] == MondayNight && first[1] == monday && second[0] == MondayNight && second[1] == tuesday;
    assert ReachedFrom(first, 7, instant) && ReachedFrom(second, 7, instant) && !ReachedFrom(first, 8, instant);
    assert ClosedOn(first, 7) && !ClosedOn(first, 8) && ClosedOn(second, 8) && !ClosedOn(second, 7);
    ClosureReadingsAgreeIff(first, 8, TICKS_PER_HOUR);
    ClosureReadingsAgreeIff(second, 8, TICKS_PER_HOUR);
    OpenIffCovered(first, 8, TICKS_PER_HOUR);
    OpenIffCovered(second, 8, TICKS_PER_HOUR);
  }
}

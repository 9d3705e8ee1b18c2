/** Service periods in a zone of fixed offset: the weekly schedules laid on local dates. */
module Periods {
  import opened Sorting
  import opened Domain
  import opened Availability

  /** Days are counted from 1970-01-01, a Thursday; ISO weekdays run from Monday = 1. */
  function IsoWeekday(date: int): int {
    (date + 3) % 7 + 1
  }

  /** The local date of an instant. */
  function DateOf(t: int, offset: int): int {
    (t + offset) / DAY
  }

  function TimeOfDay(t: int, offset: int): int {
    (t + offset) % DAY
  }

  /** A weekly service period; `opens` and `closes` are times of day in milliseconds. */
  datatype Schedule = Schedule(
    id: Id, weekday: int, opens: int, closes: int, closesNextDay: bool, durations: seq<Entry>, gap: int, active: bool)

  /** What the table's CHECK constraints allow. */
  predicate ProperSchedule(s: Schedule) {
    && 1 <= s.weekday <= 7 && 0 <= s.opens <= DAY && 0 <= s.closes <= DAY
    && (s.closesNextDay <==> s.closes <= s.opens)
  }

  /** The period of a schedule that begins on a local date. */
  function OccurrenceOn(s: Schedule, date: int, offset: int): Period {
    Period(s.id, date * DAY + s.opens - offset, (date + if s.closesNextDay then 1 else 0) * DAY + s.closes - offset,
           s.durations, s.gap)
  }

  predicate Meets(p: Period, from: int, to: int) {
    p.ends > from && p.starts < to
  }

  /** The `i`-th local date generated: they run from the day before `from` through that of `to`. */
  function GeneratedDate(offset: int, from: int, i: int): int {
    DateOf(from, offset) - 1 + i
  }

  /** The query: the generated dates joined with the active schedules of their weekday, kept where the period meets
      the window. */
  function Generated(schedules: set<Schedule>, offset: int, from: int, to: int): set<Period> {
    set s, i | s in schedules && 0 <= i <= DateOf(to, offset) - DateOf(from, offset) + 1
               && s.active && s.weekday == IsoWeekday(GeneratedDate(offset, from, i))
               && Meets(OccurrenceOn(s, GeneratedDate(offset, from, i), offset), from, to)
      :: OccurrenceOn(s, GeneratedDate(offset, from, i), offset)
  }

  /** `p` is what schedule `s` opens on some date, however far from the window. */
  ghost predicate Occurs(s: Schedule, p: Period, offset: int) {
    exists date {:trigger IsoWeekday(date)} :: s.weekday == IsoWeekday(date) && p == OccurrenceOn(s, date, offset)
  }

  lemma DateBounds(t: int, offset: int)
    ensures DateOf(t, offset) * DAY <= t + offset < (DateOf(t, offset) + 1) * DAY
  {
  }

  lemma MeetingDates(s: Schedule, date: int, offset: int, from: int, to: int)
    requires ProperSchedule(s) && Meets(OccurrenceOn(s, date, offset), from, to)
    ensures DateOf(from, offset) - 1 <= date <= DateOf(to, offset)
  {
    DateBounds(from, offset);
    DateBounds(to, offset);
  }

  /** The dates generated miss no period: the query returns exactly the occurrences of active schedules, overnight ones
      included, that meet the window. */
  lemma PeriodsAreComplete(schedules: set<Schedule>, offset: int, from: int, to: int, p: Period)
    requires forall s :: s in schedules ==> ProperSchedule(s)
    ensures p in Generated(schedules, offset, from, to) <==>
            Meets(p, from, to) && exists s :: s in schedules && s.active && Occurs(s, p, offset)
  {
    if Meets(p, from, to) && exists s :: s in schedules && s.active && Occurs(s, p, offset) {
      var s :| s in schedules && s.active && Occurs(s, p, offset);
      var date :| s.weekday == IsoWeekday(date) && p == OccurrenceOn(s, date, offset);
      MeetingDates(s, date, offset, from, to);
      var i := date - (DateOf(from, offset) - 1);
      assert GeneratedDate(offset, from, i) == date;
      hide DateOf, IsoWeekday, GeneratedDate;
      assert p in Generated(schedules, offset, from, to);
    }
  }

  /** `p` is what schedule `s` offers on a date: its hours there, its durations and its gap. */
  predicate LaidOut(s: Schedule, date: int, offset: int, p: Period) {
    && p.scheduleId == s.id && p.durations == s.durations && p.gap == s.gap
    && p.starts == date * DAY + s.opens - offset
    && p.ends == (if s.closesNextDay then date * DAY + DAY else date * DAY) + s.closes - offset
  }

  /** The periods generated are those that active schedules lay out on dates of their weekday and that meet the
      window: none is missing and none comes with hours, durations or a gap of anything else. */
  lemma GeneratedExactly(schedules: set<Schedule>, offset: int, from: int, to: int, p: Period)
    requires forall s :: s in schedules ==> ProperSchedule(s)
    ensures p in Generated(schedules, offset, from, to) <==>
            && p.ends > from && p.starts < to
            && exists s, date :: s in schedules && s.active && s.weekday == IsoWeekday(date)
                                 && LaidOut(s, date, offset, p)
  {
    PeriodsAreComplete(schedules, offset, from, to, p);
    forall s, date ensures LaidOut(s, date, offset, p) <==> p == OccurrenceOn(s, date, offset) {
      LaidOutIsOccurrence(s, date, offset, p);
    }
    hide Generated, LaidOut, OccurrenceOn, IsoWeekday, ProperSchedule;
  }

  lemma LaidOutIsOccurrence(s: Schedule, date: int, offset: int, p: Period)
    ensures LaidOut(s, date, offset, p) <==> p == OccurrenceOn(s, date, offset)
  {
  }

  /** 1970-01-01 was a Thursday, and the weekdays follow one another. */
  lemma WeekdaysRun(date: int)
    ensures IsoWeekday(0) == 4
    ensures IsoWeekday(date + 1) == if IsoWeekday(date) == 7 then 1 else IsoWeekday(date) + 1
    ensures 1 <= IsoWeekday(date) <= 7
  {
  }

  // ----- Opening hours, read off the clock -----

  /** Whether the schedule is open at an instant, judged by the local weekday and time of day alone. */
  predicate OpenAt(s: Schedule, t: int, offset: int) {
    var today, time := IsoWeekday(DateOf(t, offset)), TimeOfDay(t, offset);
    if !s.closesNextDay then s.weekday == today && s.opens <= time < s.closes
    else (s.weekday == today && s.opens <= time) || (s.weekday == IsoWeekday(DateOf(t, offset) - 1) && time < s.closes)
  }

  lemma OccurrenceCovers(s: Schedule, date: int, t: int, offset: int)
    requires ProperSchedule(s)
    ensures var p := OccurrenceOn(s, date, offset);
            p.starts <= t < p.ends <==>
            var d, time := DateOf(t, offset), TimeOfDay(t, offset);
            if !s.closesNextDay then d == date && s.opens <= time < s.closes
            else (d == date && s.opens <= time) || (d == date + 1 && time < s.closes)
  {
    DateBounds(t, offset);
    assert t + offset == DateOf(t, offset) * DAY + TimeOfDay(t, offset);
  }

  /** At every instant of the window some generated period of the schedule is open exactly when its hours say so. */
  lemma PeriodsFollowHours(schedules: set<Schedule>, offset: int, from: int, to: int, s: Schedule, t: int)
    requires (forall o :: o in schedules ==> ProperSchedule(o)) && s in schedules && s.active && from <= t < to
    ensures OpenAt(s, t, offset) <==>
            exists p :: p in Generated(schedules, offset, from, to) && Occurs(s, p, offset) && p.starts <= t < p.ends
  {
    var today := DateOf(t, offset);
    OccurrenceCovers(s, today, t, offset);
    OccurrenceCovers(s, today - 1, t, offset);
    if OpenAt(s, t, offset) {
      var date := if s.weekday == IsoWeekday(today) && s.opens <= TimeOfDay(t, offset) then today else today - 1;
      var p := OccurrenceOn(s, date, offset);
      assert Occurs(s, p, offset) && p.starts <= t < p.ends;
      PeriodsAreComplete(schedules, offset, from, to, p);
    }
    if p :| p in Generated(schedules, offset, from, to) && Occurs(s, p, offset) && p.starts <= t < p.ends {
      var date :| s.weekday == IsoWeekday(date) && p == OccurrenceOn(s, date, offset);
      OccurrenceCovers(s, date, t, offset);
    }
  }

  // ----- What the periods are used for -----

  ghost predicate DistinctSchedules(schedules: set<Schedule>) {
    forall a, b :: a in schedules && b in schedules && a.id == b.id ==> a == b
  }

  /** Periods are ordered by opening and then schedule id without ties, which is what the computation asks of them. */
  lemma PeriodsAreDistinct(schedules: set<Schedule>, offset: int, from: int, to: int, ps: seq<Period>)
    requires (forall s :: s in schedules ==> ProperSchedule(s)) && DistinctSchedules(schedules)
    requires forall p :: p in ps <==> p in Generated(schedules, offset, from, to)
    ensures DistinctPeriods(ps)
  {
    forall p, o | p in ps && o in ps && p != o ensures Precedes(p, o) || Precedes(o, p) {
      PeriodsAreComplete(schedules, offset, from, to, p);
      PeriodsAreComplete(schedules, offset, from, to, o);
      var s :| s in schedules && s.active && Occurs(s, p, offset);
      var r :| r in schedules && r.active && Occurs(r, o, offset);
    }
  }

  /** The schedule check of a hold: no active schedule, or a period found over the booking that contains it. */
  predicate InsideSchedule(schedules: set<Schedule>, offset: int, start: int, end: int) {
    (forall s :: s in schedules ==> !s.active)
    || exists p :: p in Generated(schedules, offset, start, end) && p.starts <= start && end <= p.ends
  }

  /** Looking only at periods over the booking, the check refuses exactly the bookings no occurrence contains. */
  lemma ScheduleCheckIsExact(schedules: set<Schedule>, offset: int, start: int, end: int)
    requires (forall s :: s in schedules ==> ProperSchedule(s)) && start < end
    ensures InsideSchedule(schedules, offset, start, end) <==>
            || (forall s :: s in schedules ==> !s.active)
            || exists s, p :: s in schedules && s.active && Occurs(s, p, offset) && p.starts <= start && end <= p.ends
  {
    if p :| p in Generated(schedules, offset, start, end) && p.starts <= start && end <= p.ends {
      PeriodsAreComplete(schedules, offset, start, end, p);
    }
    if s, p :| s in schedules && s.active && Occurs(s, p, offset) && p.starts <= start && end <= p.ends {
      PeriodsAreComplete(schedules, offset, start, end, p);
    }
  }
}

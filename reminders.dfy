/**
 * The reminder sweep: which reminder is due for one booked user at `now`,
 * and one pass over the rows fetched from `users`. Times are whole minutes;
 * the calendar date of a time is its day number and its hour the hour within
 * that day.
 */
module Reminders {
  import opened Wrappers
  import opened Ledger

  /** `t.date()`: the number of the day `t` falls on. */
  function Day(t: int): int {
    t / MinutesPerDay
  }

  /** `t.hour`. */
  function HourOfDay(t: int): int {
    (t % MinutesPerDay) / MinutesPerHour
  }

  /** The "1 час" reminder is sent from 15 minutes before the end. */
  const LeadMinutes: int := 15
  /** The "1 неделя" reminder falls on the date of start + 5 days. */
  const WeekCheckpointDays: int := 5
  /** The "1 месяц" reminder falls on the date of start + 3 weeks. */
  const MonthCheckpointDays: int := 21
  /** Both calendar reminders are sent during the 9 o'clock hour. */
  const CheckpointHour: int := 9

  /** The four reminder messages of the sweep. */
  datatype Kind =
    | EndsSoon        // "return the book in 15 minutes"
    | Ended           // "the booking has ended, please return the book"
    | DueTomorrow     // "return the book tomorrow"
    | DueInAWeek      // "return the book in a week"

  datatype Reminder = Reminder(user: UserId, title: Option<string>, kind: Kind)

  /** `now` is in the 9 o'clock hour of the date that `start + days` days falls on. */
  predicate AtCheckpoint(now: int, start: int, days: int) {
    Day(now) == Day(start + days * MinutesPerDay) && HourOfDay(now) == CheckpointHour
  }

  /**
   * The reminders due for one fetched row at `now`. A row without start or
   * end is skipped; "1 день" and any other duration have no reminder.
   */
  function DueKinds(u: User, now: int): (r: seq<Kind>)
    ensures |r| <= 1
    ensures u.bookingStart.None? || u.bookingEnd.None? ==> r == []
  {
    if u.bookingStart.None? || u.bookingEnd.None? then []
    else
      var start, end := u.bookingStart.value, u.bookingEnd.value;
      if u.bookingDuration == Some(HourTier) then
        (if end - LeadMinutes <= now < end then [EndsSoon] else [])
        + (if now >= end then [Ended] else [])
      else if u.bookingDuration == Some(WeekTier) then
        if AtCheckpoint(now, start, WeekCheckpointDays) then [DueTomorrow] else []
      else if u.bookingDuration == Some(MonthTier) then
        if AtCheckpoint(now, start, MonthCheckpointDays) then [DueInAWeek] else []
      else []
  }

  function DueFor(uid: UserId, u: User, now: int): (r: seq<Reminder>)
    ensures |r| <= 1 && |r| == |DueKinds(u, now)|
    ensures forall x :: x in r ==> x.user == uid && x.title == u.currentBook && x.kind in DueKinds(u, now)
  {
    var kinds := DueKinds(u, now);
    if kinds == [] then [] else [Reminder(uid, u.currentBook, kinds[0])]
  }

  // ---------------------------------------------------------------- the tiers

  /**
   * "1 час": the 15-minute reminder is due exactly on [end - 15, end), the
   * overdue one exactly from `end` on, so the two are never due together.
   */
  lemma HourTierReminders(u: User, now: int)
    requires u.bookingStart.Some? && u.bookingEnd.Some? && u.bookingDuration == Some(HourTier)
    ensures var end := u.bookingEnd.value;
      && (EndsSoon in DueKinds(u, now) <==> end - 15 <= now < end)
      && (Ended in DueKinds(u, now) <==> now >= end)
      && !(EndsSoon in DueKinds(u, now) && Ended in DueKinds(u, now))
      && DueKinds(u, now) == if end - 15 <= now < end then [EndsSoon] else if now >= end then [Ended] else []
  {
  }

  /** There is no cooldown: once the overdue reminder is due it is due at every later sweep. */
  lemma EndedRepeats(u: User, now: int, later: int)
    requires u.bookingStart.Some? && u.bookingEnd.Some? && u.bookingDuration == Some(HourTier)
    requires Ended in DueKinds(u, now) && now <= later
    ensures DueKinds(u, later) == [Ended]
  {
  }

  /** "1 день" never gets a reminder. */
  lemma DayTierSilent(u: User, now: int)
    requires u.bookingDuration == Some(DayTier)
    ensures DueKinds(u, now) == []
  {
  }

  /** Moving a time by whole days moves its day number by as many. */
  lemma DayShift(t: int, days: int)
    ensures Day(t + days * MinutesPerDay) == Day(t) + days
  {
    var q, r := t / MinutesPerDay, t % MinutesPerDay;
    assert t + days * MinutesPerDay == (q + days) * MinutesPerDay + r;
  }

  /** Day `d` is the half-open range of minutes [d * 1440, d * 1440 + 1440). */
  lemma DayRange(t: int, d: int)
    ensures Day(t) == d <==> d * MinutesPerDay <= t < d * MinutesPerDay + MinutesPerDay
  {
  }

  /**
   * The calendar reminders are due during exactly one hour: 09:00 to 09:59
   * on the date `days` days after the start.
   */
  lemma {:induction false} CheckpointWindow(now: int, start: int, days: int)
    ensures var base := (Day(start) + days) * MinutesPerDay;
      AtCheckpoint(now, start, days) <==> base + 9 * 60 <= now < base + 10 * 60
  {
    var d := Day(start) + days;
    var base := d * MinutesPerDay;
    DayShift(start, days);
    DayRange(now, d);
    if Day(now) == d {
      assert now % MinutesPerDay == now - base;
    }
  }

  /** "1 неделя": due exactly in the 9 o'clock hour of the date of start + 5 days. */
  lemma WeekTierReminder(u: User, now: int)
    requires u.bookingStart.Some? && u.bookingEnd.Some? && u.bookingDuration == Some(WeekTier)
    ensures var base := (Day(u.bookingStart.value) + 5) * MinutesPerDay;
      DueKinds(u, now) == if base + 540 <= now < base + 600 then [DueTomorrow] else []
  {
    CheckpointWindow(now, u.bookingStart.value, WeekCheckpointDays);
  }

  /** "1 месяц": due exactly in the 9 o'clock hour of the date of start + 21 days. */
  lemma MonthTierReminder(u: User, now: int)
    requires u.bookingStart.Some? && u.bookingEnd.Some? && u.bookingDuration == Some(MonthTier)
    ensures var base := (Day(u.bookingStart.value) + 21) * MinutesPerDay;
      DueKinds(u, now) == if base + 540 <= now < base + 600 then [DueInAWeek] else []
  {
    CheckpointWindow(now, u.bookingStart.value, MonthCheckpointDays);
  }

  /**
   * For a loan written by `create_booking`, the "tomorrow" reminder of a week
   * falls two dates before the end date, and the "in a week" reminder of a
   * month nine dates before it.
   */
  lemma CalendarRemindersBeforeEnd(u: User)
    requires WellFormedUser(u) && u.status == Booked
    ensures u.bookingDuration == Some(WeekTier) ==>
      Day(u.bookingEnd.value) - Day(u.bookingStart.value + WeekCheckpointDays * MinutesPerDay) == 2
    ensures u.bookingDuration == Some(MonthTier) ==>
      Day(u.bookingEnd.value) - Day(u.bookingStart.value + MonthCheckpointDays * MinutesPerDay) == 9
  {
    var start := u.bookingStart.value;
    DayShift(start, 5);
    DayShift(start, 7);
    DayShift(start, 21);
    DayShift(start, 30);
  }

  // ---------------------------------------------------------------- the sweep

  /** The rows the sweep reads: users whose status is 'booked' and whose end is not NULL. */
  predicate Selected(u: User) {
    u.status == Booked && u.bookingEnd.Some?
  }

  /** `rows` is a result of the sweep's query on `t`: each selected user once, in any order. */
  predicate IsFetch(t: Tables, rows: seq<(UserId, User)>) {
    && (forall i, j :: 0 <= i < j < |rows| ==> rows[i].0 != rows[j].0)
    && (forall i :: 0 <= i < |rows| ==> rows[i].0 in t.users && t.users[rows[i].0] == rows[i].1 && Selected(rows[i].1))
    && (forall uid :: uid in t.users && Selected(t.users[uid]) ==> exists i :: 0 <= i < |rows| && rows[i].0 == uid)
  }

  /** The reminders of one pass over `rows`, row by row. */
  function Notices(rows: seq<(UserId, User)>, now: int): seq<Reminder> {
    if rows == [] then []
    else
      var last := rows[|rows| - 1];
      Notices(rows[..|rows| - 1], now) + DueFor(last.0, last.1, now)
  }

  lemma {:induction false} NoticesMembership(rows: seq<(UserId, User)>, now: int, x: Reminder)
    ensures x in Notices(rows, now) <==> exists i :: 0 <= i < |rows| && x in DueFor(rows[i].0, rows[i].1, now)
  {
    if rows != [] {
      var init := rows[..|rows| - 1];
      NoticesMembership(init, now, x);
      assert forall i :: 0 <= i < |init| ==> init[i] == rows[i];
    }
  }

  /**
   * One pass of `check_reminders` over the fetched rows: the reminders it
   * tries to send, in row order. A failed send is logged and the pass goes on,
   * so the attempts do not depend on delivery.
   */
  method Sweep(rows: seq<(UserId, User)>, now: int) returns (sent: seq<Reminder>)
    ensures sent == Notices(rows, now)
  {
    sent := [];
    for i := 0 to |rows|
      invariant sent == Notices(rows[..i], now)
    {
      assert rows[..i + 1][..i] == rows[..i];
      sent := sent + DueFor(rows[i].0, rows[i].1, now);
    }
    assert rows[..|rows|] == rows;
  }

  /**
   * A pass over a fetch of `t` reminds exactly the booked users that have a
   * reminder due, each about the book on their row.
   */
  lemma SweepReachesBookedUsers(t: Tables, rows: seq<(UserId, User)>, now: int, x: Reminder)
    requires IsFetch(t, rows)
    ensures x in Notices(rows, now) <==>
      x.user in t.users && t.users[x.user].status == Booked && x in DueFor(x.user, t.users[x.user], now)
  {
    NoticesMembership(rows, now, x);
    if x.user in t.users && t.users[x.user].status == Booked && x in DueFor(x.user, t.users[x.user], now) {
      assert Selected(t.users[x.user]);
      var i :| 0 <= i < |rows| && rows[i].0 == x.user;
      assert x in DueFor(rows[i].0, rows[i].1, now);
    }
  }
}

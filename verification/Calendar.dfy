/**
 The GMT reset boundary of a quota cycle (internal/monitor/quota.go). A time is a
 number of seconds since the start of year 1, as Go's zero Time; a month is its
 index from there, so that time.Date's carrying of months into years is addition.
 */
module Calendar {

  const DAY_SECONDS: nat := 86400
  const HOUR_SECONDS: nat := 3600
  /** Seconds from the start of year 1 to the Unix epoch. */
  const UNIX_EPOCH: nat := 719162 * DAY_SECONDS

  type Time = nat

  predicate Leap(year: nat) {
    year % 4 == 0 && (year % 100 != 0 || year % 400 == 0)
  }

  function MonthLength(month: nat): (days: nat)
    ensures 28 <= days <= 31
  {
    var m := month % 12;
    if m == 1 then (if Leap(month / 12 + 1) then 29 else 28)
    else if m == 3 || m == 5 || m == 8 || m == 10 then 30
    else 31
  }

  /** Days from the start of year 1 to the first of a month. */
  function FirstDay(month: nat): nat {
    if month == 0 then 0 else FirstDay(month - 1) + MonthLength(month - 1)
  }

  /** The month a day falls in. */
  function MonthOfDay(day: nat): (month: nat)
    ensures FirstDay(month) <= day < FirstDay(month + 1)
  {
    if day == 0 then 0
    else
      var month := MonthOfDay(day - 1);
      if day == FirstDay(month + 1) then month + 1 else month
  }

  /** Year and month of a time, as one index. */
  function Month(t: Time): nat {
    MonthOfDay(t / DAY_SECONDS)
  }

  /** Time.Day. */
  function Day(t: Time): nat {
    t / DAY_SECONDS - FirstDay(Month(t)) + 1
  }

  /** time.Date at a whole hour: a day outside the month carries over. */
  function Date(month: nat, day: int, hour: nat): Time
    requires FirstDay(month) + day >= 1
  {
    (FirstDay(month) + day - 1) * DAY_SECONDS + hour * HOUR_SECONDS
  }

  /** Time.AddDate(0, months, 0). */
  function AddMonths(t: Time, months: int): Time
    requires Month(t) + months >= 0
  {
    Date(Month(t) + months, Day(t), 0) + t % DAY_SECONDS
  }

  /** Day zero of the next month is the last of this one. */
  function ClampDay(month: nat, day: int): (clamped: int)
    ensures day >= 1 ==> clamped >= 1
  {
    var last := Day(Date(month + 1, 0, 0));
    if day > last then last else day
  }

  function BoundaryHour(hour: int): nat {
    if hour < 0 || hour > 23 then 0 else hour
  }

  function CycleStart(now: Time, resetDay: int, resetHour: int): Time
    requires Month(now) >= 1
  {
    var resetDay: nat := if resetDay < 1 then 1 else resetDay;
    var hour := BoundaryHour(resetHour);
    var candidate := Date(Month(now), ClampDay(Month(now), resetDay), hour);
    if candidate <= now then candidate
    else
      var prev := AddMonths(now, -1);
      Date(Month(prev), ClampDay(Month(prev), resetDay), hour)
  }

  /** Unlike CycleStart it takes a reset day below 1 as it comes; times before year 1 are left out. */
  function NextCycleReset(now: Time, resetDay: int, resetHour: int): Time
    requires Month(now) >= 1 && FirstDay(Month(AddMonths(CycleStart(now, resetDay, resetHour), 1))) + resetDay >= 1
  {
    var next := AddMonths(CycleStart(now, resetDay, resetHour), 1);
    Date(Month(next), ClampDay(Month(next), resetDay), BoundaryHour(resetHour))
  }

  // ------------------------------------------------------------ the calendar

  lemma NextFirstDay(month: nat)
    ensures FirstDay(month + 1) == FirstDay(month) + MonthLength(month)
  {
  }

  lemma {:induction false} MonthsInOrder(i: nat, j: nat)
    requires i < j
    ensures FirstDay(i + 1) <= FirstDay(j)
  {
    if i + 1 < j {
      MonthsInOrder(i, j - 1);
      NextFirstDay(j - 1);
    }
  }

  /** A day lies in only one month. */
  lemma MonthOfDayUnique(day: nat, month: nat)
    requires FirstDay(month) <= day < FirstDay(month + 1)
    ensures MonthOfDay(day) == month
  {
    var found := MonthOfDay(day);
    if found < month {
      MonthsInOrder(found, month);
    } else if month < found {
      MonthsInOrder(month, found);
    }
  }

  lemma SplitSeconds(days: nat, seconds: nat)
    requires seconds < DAY_SECONDS
    ensures (days * DAY_SECONDS + seconds) / DAY_SECONDS == days
    ensures (days * DAY_SECONDS + seconds) % DAY_SECONDS == seconds
  {
  }

  /** A day within the month is what Date was asked for. */
  lemma DateReads(month: nat, day: nat, seconds: nat)
    requires 1 <= day <= MonthLength(month) && seconds < DAY_SECONDS
    ensures Month(Date(month, day, 0) + seconds) == month
    ensures Day(Date(month, day, 0) + seconds) == day
    ensures (Date(month, day, 0) + seconds) % DAY_SECONDS == seconds
  {
    hide FirstDay, MonthOfDay, MonthLength;
    SplitSeconds(FirstDay(month) + day - 1, seconds);
    NextFirstDay(month);
    MonthOfDayUnique(FirstDay(month) + day - 1, month);
  }

  lemma DateHour(month: nat, day: nat, hour: nat)
    requires day >= 1
    ensures Date(month, day, hour) == Date(month, day, 0) + hour * HOUR_SECONDS
  {
  }

  lemma ClampIs(month: nat, day: nat)
    ensures ClampDay(month, day) == if day > MonthLength(month) then MonthLength(month) else day
  {
    hide FirstDay, MonthOfDay, MonthLength;
    NextFirstDay(month);
    var last := FirstDay(month) + MonthLength(month) - 1;
    assert Date(month + 1, 0, 0) == last * DAY_SECONDS;
    SplitSeconds(last, 0);
    MonthOfDayUnique(last, month);
  }

  /** A time is its month, day and seconds. */
  lemma TimeIsDate(t: Time)
    ensures t == Date(Month(t), Day(t), 0) + t % DAY_SECONDS
    ensures 1 <= Day(t) <= MonthLength(Month(t))
  {
  }

  // ------------------------------------------------------------ boundaries

  /** Short months reset on their last day. */
  function BoundaryDay(month: nat, resetDay: nat): nat {
    if resetDay > MonthLength(month) then MonthLength(month) else resetDay
  }

  /** The reset boundary inside one month. */
  function Boundary(month: nat, resetDay: nat, resetHour: nat): Time
    requires 1 <= resetDay
  {
    Date(month, BoundaryDay(month, resetDay), resetHour)
  }

  ghost predicate IsBoundary(t: Time, resetDay: nat, resetHour: nat)
    requires 1 <= resetDay
  {
    exists month :: t == Boundary(month, resetDay, resetHour)
  }

  lemma BoundaryReads(month: nat, resetDay: nat, resetHour: nat)
    requires 1 <= resetDay && resetHour < 24
    ensures Month(Boundary(month, resetDay, resetHour)) == month
    ensures Boundary(month, resetDay, resetHour) % HOUR_SECONDS == 0
    ensures Day(Boundary(month, resetDay, resetHour)) == BoundaryDay(month, resetDay)
    ensures FirstDay(month) * DAY_SECONDS <= Boundary(month, resetDay, resetHour) < FirstDay(month + 1) * DAY_SECONDS
  {
    hide FirstDay, MonthOfDay, MonthLength, Month, Day;
    var day := BoundaryDay(month, resetDay);
    DateHour(month, day, resetHour);
    DateReads(month, day, resetHour * HOUR_SECONDS);
    NextFirstDay(month);
  }

  lemma BoundariesInOrder(i: nat, j: nat, resetDay: nat, resetHour: nat)
    requires 1 <= resetDay && resetHour < 24 && i < j
    ensures Boundary(i, resetDay, resetHour) < Boundary(j, resetDay, resetHour)
  {
    hide FirstDay, Boundary, Month, Day;
    BoundaryReads(i, resetDay, resetHour);
    BoundaryReads(j, resetDay, resetHour);
    MonthsInOrder(i, j);
  }

  /** Going back a month stays in the previous month only if it is long enough. */
  lemma PreviousMonth(now: Time)
    requires Month(now) >= 1
    ensures Month(AddMonths(now, -1)) ==
      if Day(now) <= MonthLength(Month(now) - 1) then Month(now) - 1 else Month(now)
  {
    hide FirstDay, MonthOfDay, MonthLength, Month, Day;
    var month := Month(now);
    TimeIsDate(now);
    NextFirstDay(month - 1);
    if Day(now) <= MonthLength(month - 1) {
      DateReads(month - 1, Day(now), now % DAY_SECONDS);
    } else {
      DateReads(month, Day(now) - MonthLength(month - 1), now % DAY_SECONDS);
    }
  }

  /** Going forward a month skips the next month if it is too short. */
  lemma FollowingMonth(t: Time)
    ensures Month(AddMonths(t, 1)) ==
      if Day(t) <= MonthLength(Month(t) + 1) then Month(t) + 1 else Month(t) + 2
  {
    hide FirstDay, MonthOfDay, MonthLength, Month, Day;
    var month := Month(t);
    TimeIsDate(t);
    NextFirstDay(month + 1);
    if Day(t) <= MonthLength(month + 1) {
      DateReads(month + 1, Day(t), t % DAY_SECONDS);
    } else {
      DateReads(month + 2, Day(t) - MonthLength(month + 1), t % DAY_SECONDS);
    }
  }

  /** CycleStart in terms of the month boundaries, for every reset day. */
  lemma CycleStartIs(now: Time, resetDay: nat, resetHour: nat)
    requires Month(now) >= 1 && 1 <= resetDay && resetHour < 24
    ensures var month := Month(now); var current := Boundary(month, resetDay, resetHour);
      CycleStart(now, resetDay, resetHour) ==
        if current <= now || Day(now) > MonthLength(month - 1) then current
        else Boundary(month - 1, resetDay, resetHour)
  {
    hide FirstDay, MonthOfDay, MonthLength, Month, Day, ClampDay, AddMonths;
    ClampIs(Month(now), resetDay);
    ClampIs(Month(now) - 1, resetDay);
    PreviousMonth(now);
  }

  /** t is the last reset boundary that has been reached. */
  ghost predicate LastReached(t: Time, now: Time, resetDay: nat, resetHour: nat)
    requires 1 <= resetDay
  {
    && IsBoundary(t, resetDay, resetHour) && t <= now
    && forall b: Time :: IsBoundary(b, resetDay, resetHour) && b <= now ==> b <= t
  }

  /** t is the first reset boundary still to come. */
  ghost predicate FirstAhead(t: Time, now: Time, resetDay: nat, resetHour: nat)
    requires 1 <= resetDay
  {
    && IsBoundary(t, resetDay, resetHour) && now < t
    && forall b: Time :: IsBoundary(b, resetDay, resetHour) && now < b ==> t <= b
  }

  /** Whether stepping back a month from now lands in the previous month. */
  predicate StepsBack(now: Time, resetDay: nat, resetHour: nat)
    requires Month(now) >= 1 && 1 <= resetDay
  {
    Boundary(Month(now), resetDay, resetHour) <= now || Day(now) <= MonthLength(Month(now) - 1)
  }

  /** Whether stepping on a month from the start lands in the month after it. */
  predicate StepsOn(start: Time) {
    Day(start) <= MonthLength(Month(start) + 1)
  }

  lemma BoundaryMonth(b: Time, resetDay: nat, resetHour: nat) returns (month: nat)
    requires 1 <= resetDay && resetHour < 24 && IsBoundary(b, resetDay, resetHour)
    ensures b == Boundary(month, resetDay, resetHour)
  {
    month :| b == Boundary(month, resetDay, resetHour);
  }

  lemma NowInMonth(now: Time)
    ensures FirstDay(Month(now)) * DAY_SECONDS <= now < FirstDay(Month(now) + 1) * DAY_SECONDS
  {
  }

  /**
   CycleStart is the greatest reset boundary not after now exactly when the month
   before now is long enough to step back into; every other input gives a start
   that lies in the future.
   */
  lemma CycleStartExactly(now: Time, resetDay: nat, resetHour: nat)
    requires Month(now) >= 1 && 1 <= resetDay && resetHour < 24
    ensures StepsBack(now, resetDay, resetHour) <==>
      LastReached(CycleStart(now, resetDay, resetHour), now, resetDay, resetHour)
    ensures StepsBack(now, resetDay, resetHour) <==> CycleStart(now, resetDay, resetHour) <= now
  {
    hide FirstDay, Boundary, Month, Day, MonthLength, CycleStart;
    var start, month := CycleStart(now, resetDay, resetHour), Month(now);
    CycleStartIs(now, resetDay, resetHour);
    NowInMonth(now);
    BoundaryReads(month - 1, resetDay, resetHour);
    if StepsBack(now, resetDay, resetHour) {
      var of := if Boundary(month, resetDay, resetHour) <= now then month else month - 1;
      assert start == Boundary(of, resetDay, resetHour);
      forall b: Time | IsBoundary(b, resetDay, resetHour) && b <= now ensures b <= start {
        var m := BoundaryMonth(b, resetDay, resetHour);
        BoundaryReads(m, resetDay, resetHour);
        if m > of {
          if m > month { MonthsInOrder(month, m); }
        } else if m < of {
          BoundariesInOrder(m, of, resetDay, resetHour);
        }
      }
    }
  }

  lemma NextIsBoundary(now: Time, resetDay: nat, resetHour: nat)
    requires Month(now) >= 1 && 1 <= resetDay && resetHour < 24
    ensures NextCycleReset(now, resetDay, resetHour)
         == Boundary(Month(AddMonths(CycleStart(now, resetDay, resetHour), 1)), resetDay, resetHour)
  {
    hide FirstDay, Month, Day, MonthLength, CycleStart, AddMonths, ClampDay;
    ClampIs(Month(AddMonths(CycleStart(now, resetDay, resetHour), 1)), resetDay);
  }

  /**
   NextCycleReset is the least boundary after now exactly when CycleStart is right and
   the month after the start has the start's day; otherwise it skips a boundary. It is
   after now in every case.
   */
  lemma NextCycleResetExactly(now: Time, resetDay: nat, resetHour: nat)
    requires Month(now) >= 1 && 1 <= resetDay && resetHour < 24
    ensures var start := CycleStart(now, resetDay, resetHour);
      StepsBack(now, resetDay, resetHour) && StepsOn(start) <==>
        FirstAhead(NextCycleReset(now, resetDay, resetHour), now, resetDay, resetHour)
    ensures now < NextCycleReset(now, resetDay, resetHour)
  {
    hide FirstDay, Boundary, Month, Day, MonthLength, CycleStart, AddMonths, ClampDay, NextCycleReset;
    var start := CycleStart(now, resetDay, resetHour);
    CycleStartExactly(now, resetDay, resetHour);
    CycleStartIs(now, resetDay, resetHour);
    assert IsBoundary(start, resetDay, resetHour);
    var of := BoundaryMonth(start, resetDay, resetHour);
    BoundaryReads(of, resetDay, resetHour);
    FollowingMonth(start);
    var after := Month(AddMonths(start, 1));
    var next, soonest := NextCycleReset(now, resetDay, resetHour), Boundary(of + 1, resetDay, resetHour);
    NextIsBoundary(now, resetDay, resetHour);
    BoundariesInOrder(of, of + 1, resetDay, resetHour);
    assert IsBoundary(soonest, resetDay, resetHour);
    if after != of + 1 { BoundariesInOrder(of + 1, of + 2, resetDay, resetHour); }
    if StepsBack(now, resetDay, resetHour) {
      assert now < soonest;
      if after == of + 1 {
        forall b: Time | IsBoundary(b, resetDay, resetHour) && now < b ensures soonest <= b {
          var m := BoundaryMonth(b, resetDay, resetHour);
          if m < of {
            BoundariesInOrder(m, of, resetDay, resetHour);
          } else if m > of + 1 {
            BoundariesInOrder(of + 1, m, resetDay, resetHour);
          }
        }
      }
    } else {
      assert now < start < next;
    }
  }

  /** Reset day 31, on the 30th after a shorter month: there is no such day to step back to, and the start is tomorrow. */
  lemma StartInTheFuture(month: nat)
    requires month >= 1 && MonthLength(month) == 31 && MonthLength(month - 1) < 30
    ensures var now := Date(month, 30, 0);
      && Month(now) == month && !StepsBack(now, 31, 0)
      && CycleStart(now, 31, 0) == Date(month, 31, 0) > now
  {
    hide FirstDay, MonthLength, Month, Day, CycleStart;
    DateReads(month, 30, 0);
    CycleStartIs(Date(month, 30, 0), 31, 0);
    assert Boundary(month, 31, 0) == Date(month, 31, 0);
  }

  /** Reset day 31, on the 31st before a shorter month: that month's reset, on its last day, is skipped. */
  lemma ShortMonthSkipped(month: nat)
    requires month >= 1 && MonthLength(month) == 31 && MonthLength(month + 1) < 31 && MonthLength(month + 2) == 31
    ensures var now := Date(month, 31, 0);
      && Month(now) == month && StepsBack(now, 31, 0)
      && NextCycleReset(now, 31, 0) == Date(month + 2, 31, 0)
      && now < Boundary(month + 1, 31, 0) < Date(month + 2, 31, 0)
  {
    hide FirstDay, MonthLength, Month, Day, CycleStart, NextCycleReset, AddMonths;
    var now := Date(month, 31, 0);
    DateReads(month, 31, 0);
    assert Boundary(month, 31, 0) == now && Boundary(month + 2, 31, 0) == Date(month + 2, 31, 0);
    CycleStartIs(now, 31, 0);
    NextIsBoundary(now, 31, 0);
    FollowingMonth(now);
    BoundariesInOrder(month, month + 1, 31, 0);
    BoundariesInOrder(month + 1, month + 2, 31, 0);
  }

  /** March 2025, counted in months. */
  const MARCH: nat := 12 * 2024 + 2

  /** Both happen: on 30 March 2025 with reset day 31, and from 31 January 2025 over the end of February. */
  lemma Spring2025()
    ensures !StepsBack(Date(MARCH, 30, 0), 31, 0) && CycleStart(Date(MARCH, 30, 0), 31, 0) == Date(MARCH, 31, 0)
    ensures NextCycleReset(Date(MARCH - 2, 31, 0), 31, 0) == Date(MARCH, 31, 0)
  {
    MarchIsLong();
    hide FirstDay, MonthLength, Month, Day, CycleStart, NextCycleReset, Date, StepsBack, Boundary;
    StartInTheFuture(MARCH);
    ShortMonthSkipped(MARCH - 2);
  }

  lemma MarchIsLong()
    ensures MonthLength(MARCH - 2) == 31 && MonthLength(MARCH - 1) == 28 && MonthLength(MARCH) == 31
  {
  }

  /**
   A reset day below 1, exactly: the start is that of day 1, but the next reset comes
   earlier than day 1's by the days the number is short, so it is never the first
   boundary ahead and lies after now only if day 1's is farther away than that.
   */
  lemma ResetDayBelowOne(now: Time, resetDay: int, resetHour: nat)
    requires Month(now) >= 1 && resetDay < 1 && resetHour < 24
    requires FirstDay(Month(AddMonths(CycleStart(now, resetDay, resetHour), 1))) + resetDay >= 1
    ensures CycleStart(now, resetDay, resetHour) == CycleStart(now, 1, resetHour)
    ensures NextCycleReset(now, resetDay, resetHour) == NextCycleReset(now, 1, resetHour) - (1 - resetDay) * DAY_SECONDS
    ensures FirstAhead(NextCycleReset(now, 1, resetHour), now, 1, resetHour)
    ensures !FirstAhead(NextCycleReset(now, resetDay, resetHour), now, 1, resetHour)
  {
    var month := Month(AddMonths(CycleStart(now, 1, resetHour), 1));
    NextIsBoundary(now, 1, resetHour);
    CycleBracketsNow(now, 1, resetHour);
    hide FirstDay, Month, MonthLength, CycleStart, AddMonths;
    ShortClamp(month, resetDay);
  }

  /** A reset hour that is none counts as midnight. */
  lemma HourOutOfRange(now: Time, resetDay: int, resetHour: int)
    requires Month(now) >= 1 && resetDay >= 1 && (resetHour < 0 || resetHour > 23)
    ensures CycleStart(now, resetDay, resetHour) == CycleStart(now, resetDay, 0)
    ensures NextCycleReset(now, resetDay, resetHour) == NextCycleReset(now, resetDay, 0)
  {
    hide FirstDay, Month, AddMonths, ClampDay;
  }

  lemma StartOfDayOne(now: Time, resetDay: int, resetHour: nat)
    requires Month(now) >= 1 && resetDay < 1
    ensures CycleStart(now, resetDay, resetHour) == CycleStart(now, 1, resetHour)
  {
  }

  lemma ShortClamp(month: nat, day: int)
    requires day < 1
    ensures ClampDay(month, day) == day && ClampDay(month, 1) == 1
  {
  }

  /** It happens: at noon on 31 March 2025 the next reset of day 0 is that day's midnight. */
  lemma ResetDayZero()
    ensures var now := Date(MARCH, 31, 12);
      Month(now) == MARCH && NextCycleReset(now, 0, 0) == Date(MARCH, 31, 0) < now
  {
    MarchIsLong();
    hide FirstDay, MonthLength, Month, Day, CycleStart, NextCycleReset, AddMonths;
    var now := Date(MARCH, 31, 12);
    DateReads(MARCH, 31, 12 * HOUR_SECONDS);
    StartOfDayOne(now, 0, 0);
    CycleStartIs(now, 1, 0);
    FollowingMonth(Boundary(MARCH, 1, 0));
    BoundaryReads(MARCH, 1, 0);
    NextFirstDay(MARCH);
    ResetDayBelowOne(now, 0, 0);
    NextIsBoundary(now, 1, 0);
  }

  // ------------------------------------------------ the reset days that are accepted

  /** Reset days 1 to 28: the start and the next reset bracket now with nothing between. */
  lemma CycleBracketsNow(now: Time, resetDay: nat, resetHour: nat)
    requires Month(now) >= 1 && 1 <= resetDay <= 28 && resetHour < 24
    ensures LastReached(CycleStart(now, resetDay, resetHour), now, resetDay, resetHour)
    ensures FirstAhead(NextCycleReset(now, resetDay, resetHour), now, resetDay, resetHour)
  {
    var month := Month(now);
    TimeIsDate(now);
    if Day(now) > 28 {
      DateHour(month, resetDay, resetHour);
      assert Boundary(month, resetDay, resetHour) == Date(month, resetDay, 0) + resetHour * HOUR_SECONDS;
      assert Date(month, Day(now), 0) - Date(month, resetDay, 0) == (Day(now) - resetDay) * DAY_SECONDS;
    }
    CycleStartExactly(now, resetDay, resetHour);
    NextCycleResetExactly(now, resetDay, resetHour);
    var of := BoundaryMonth(CycleStart(now, resetDay, resetHour), resetDay, resetHour);
    BoundaryReads(of, resetDay, resetHour);
  }

  /** Every start is a whole hour; if it has been reached it lies less than 31 days back, for days 1 to 28 always. */
  lemma CycleShape(now: Time, resetDay: nat, resetHour: nat)
    requires Month(now) >= 1 && 1 <= resetDay && resetHour < 24
    ensures CycleStart(now, resetDay, resetHour) % HOUR_SECONDS == 0
    ensures now < NextCycleReset(now, resetDay, resetHour)
    ensures StepsBack(now, resetDay, resetHour) ==> 0 <= now - CycleStart(now, resetDay, resetHour) < 31 * DAY_SECONDS
    ensures resetDay <= 28 ==> StepsBack(now, resetDay, resetHour)
  {
    hide FirstDay, Boundary, Month, Day, MonthLength, CycleStart, NextCycleReset, StepsBack;
    CycleStartExactly(now, resetDay, resetHour);
    NextCycleResetExactly(now, resetDay, resetHour);
    if resetDay <= 28 { CycleBracketsNow(now, resetDay, resetHour); }
    CycleStartIs(now, resetDay, resetHour);
    var start := CycleStart(now, resetDay, resetHour);
    assert IsBoundary(start, resetDay, resetHour);
    var of := BoundaryMonth(start, resetDay, resetHour);
    BoundaryReads(of, resetDay, resetHour);
    BoundariesInOrder(of, of + 1, resetDay, resetHour);
    NextBoundaryIsNear(of, resetDay, resetHour);
    assert IsBoundary(Boundary(of + 1, resetDay, resetHour), resetDay, resetHour);
  }

  lemma NextBoundaryIsNear(month: nat, resetDay: nat, resetHour: nat)
    requires 1 <= resetDay && resetHour < 24
    ensures Boundary(month + 1, resetDay, resetHour) - Boundary(month, resetDay, resetHour) <= 31 * DAY_SECONDS
  {
    hide FirstDay, MonthLength;
    NextFirstDay(month);
    var days := MonthLength(month) - BoundaryDay(month, resetDay) + BoundaryDay(month + 1, resetDay);
    assert days <= 31;
    assert Boundary(month + 1, resetDay, resetHour) - Boundary(month, resetDay, resetHour) == days * DAY_SECONDS;
  }

  lemma MonthsGrow(earlier: Time, later: Time)
    requires earlier <= later
    ensures Month(earlier) <= Month(later)
  {
    if Month(later) < Month(earlier) {
      NowInMonth(earlier);
      NowInMonth(later);
      MonthsInOrder(Month(later), Month(earlier));
    }
  }

  /**
   The start never moves back, whatever the reset day. Where the month steps land in the
   right months, for days 1 to 28 always, it stays put exactly until the next reset.
   */
  lemma CycleMonotone(earlier: Time, later: Time, resetDay: nat, resetHour: nat)
    requires Month(earlier) >= 1 && 1 <= resetDay && resetHour < 24 && earlier <= later
    ensures Month(later) >= 1
    ensures CycleStart(earlier, resetDay, resetHour) <= CycleStart(later, resetDay, resetHour)
    ensures var start := CycleStart(earlier, resetDay, resetHour);
      StepsBack(earlier, resetDay, resetHour) && StepsOn(start) && StepsBack(later, resetDay, resetHour) ==>
        (later < NextCycleReset(earlier, resetDay, resetHour) <==> CycleStart(later, resetDay, resetHour) == start)
    ensures StepsBack(earlier, resetDay, resetHour) && StepsBack(later, resetDay, resetHour) ==>
      CycleStart(later, resetDay, resetHour) == CycleStart(earlier, resetDay, resetHour)
      || earlier < CycleStart(later, resetDay, resetHour)
    ensures resetDay <= 28 ==>
      StepsBack(earlier, resetDay, resetHour) && StepsOn(CycleStart(earlier, resetDay, resetHour)) && StepsBack(later, resetDay, resetHour)
  {
    hide FirstDay, Boundary, Month, Day, MonthLength, CycleStart, NextCycleReset, StepsBack, StepsOn;
    MonthsGrow(earlier, later);
    StartsGrow(earlier, later, resetDay, resetHour);
    CycleStartExactly(earlier, resetDay, resetHour);
    CycleStartExactly(later, resetDay, resetHour);
    NextCycleResetExactly(earlier, resetDay, resetHour);
    if resetDay <= 28 {
      CycleBracketsNow(earlier, resetDay, resetHour);
      CycleBracketsNow(later, resetDay, resetHour);
    }
  }

  lemma DaysGrow(earlier: Time, later: Time)
    requires earlier <= later && Month(earlier) == Month(later)
    ensures Day(earlier) <= Day(later)
  {
    hide FirstDay, MonthOfDay;
    assert earlier / DAY_SECONDS <= later / DAY_SECONDS;
  }

  lemma StartsGrow(earlier: Time, later: Time, resetDay: nat, resetHour: nat)
    requires Month(earlier) >= 1 && 1 <= resetDay && resetHour < 24 && earlier <= later && Month(later) >= Month(earlier)
    ensures CycleStart(earlier, resetDay, resetHour) <= CycleStart(later, resetDay, resetHour)
  {
    hide FirstDay, Boundary, Month, Day, MonthLength, CycleStart;
    CycleStartIs(earlier, resetDay, resetHour);
    CycleStartIs(later, resetDay, resetHour);
    var i, j := Month(earlier), Month(later);
    BoundariesInOrder(i - 1, i, resetDay, resetHour);
    if i == j {
      DaysGrow(earlier, later);
    } else {
      BoundariesInOrder(j - 1, j, resetDay, resetHour);
      if i < j - 1 { BoundariesInOrder(i, j - 1, resetDay, resetHour); }
    }
  }

  /** A reset boundary starts its own cycle, whatever the reset day. */
  lemma NextResetStartsItsCycle(now: Time, resetDay: nat, resetHour: nat)
    requires Month(now) >= 1 && 1 <= resetDay && resetHour < 24
    ensures Month(NextCycleReset(now, resetDay, resetHour)) >= 1
    ensures var next := NextCycleReset(now, resetDay, resetHour); CycleStart(next, resetDay, resetHour) == next
  {
    hide FirstDay, Boundary, Month, Day, MonthLength, CycleStart, NextCycleReset, AddMonths;
    var month := Month(AddMonths(CycleStart(now, resetDay, resetHour), 1));
    NextIsBoundary(now, resetDay, resetHour);
    NextCycleResetExactly(now, resetDay, resetHour);
    BoundaryReads(month, resetDay, resetHour);
    MonthsGrow(now, NextCycleReset(now, resetDay, resetHour));
    CycleStartIs(NextCycleReset(now, resetDay, resetHour), resetDay, resetHour);
  }

  /** Days before the k-th month of a year. */
  function DaysBefore(k: nat, leap: bool): nat
    requires k <= 12
  {
    var february := if leap then 29 else 28;
    if k == 0 then 0 else if k == 1 then 31 else if k == 2 then 31 + february
    else if k == 3 then 62 + february else if k == 4 then 92 + february else if k == 5 then 123 + february
    else if k == 6 then 153 + february else if k == 7 then 184 + february else if k == 8 then 215 + february
    else if k == 9 then 245 + february else if k == 10 then 276 + february else if k == 11 then 306 + february
    else 337 + february
  }

  lemma MonthOfYear(years: nat, k: nat)
    requires k < 12
    ensures (12 * years + k) % 12 == k && (12 * years + k) / 12 == years
  {
  }

  lemma {:induction false} FirstDayInYear(years: nat, k: nat)
    requires k <= 12
    ensures FirstDay(12 * years + k) == FirstDay(12 * years) + DaysBefore(k, Leap(years + 1))
  {
    hide FirstDay, Leap;
    if k > 0 {
      FirstDayInYear(years, k - 1);
      NextFirstDay(12 * years + (k - 1));
      MonthOfYear(years, k - 1);
    }
  }

  lemma LeapYears(year: nat)
    requires year > 0
    ensures year / 4 - year / 100 + year / 400
         == (year - 1) / 4 - (year - 1) / 100 + (year - 1) / 400 + (if Leap(year) then 1 else 0)
  {
    assert year / 4 == (year - 1) / 4 + (if year % 4 == 0 then 1 else 0);
    assert year / 100 == (year - 1) / 100 + (if year % 100 == 0 then 1 else 0);
    assert year / 400 == (year - 1) / 400 + (if year % 400 == 0 then 1 else 0);
    assert year % 400 == 0 ==> year % 100 == 0;
    assert year % 100 == 0 ==> year % 4 == 0;
  }

  /** The recursive calendar is the Gregorian one: 97 leap years in 400. */
  lemma {:induction false} YearStart(years: nat)
    ensures FirstDay(12 * years) == 365 * years + years / 4 - years / 100 + years / 400
  {
    if years > 0 {
      hide FirstDay, Leap;
      YearStart(years - 1);
      FirstDayInYear(years - 1, 12);
      assert 12 * (years - 1) + 12 == 12 * years;
      LeapYears(years);
    } else {
      assert FirstDay(0) == 0;
    }
  }

  /** 1 January 1970 is day 719162, so Unix time differs by whole days. */
  lemma UnixEpoch()
    ensures Date(12 * 1969, 1, 0) == UNIX_EPOCH
  {
    hide FirstDay;
    YearStart(1969);
  }
}

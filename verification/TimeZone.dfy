/** UTC breakdown and local time over a table of transitions (muduo/base/TimeZone.cc).

    The calls to gmtime_r and timegm stand for the file's own toUtcTime and fromUtcTime. */
module TimeZone {
  import opened Date

  const SECONDS_PER_DAY := 86400

  datatype Tm = Tm(year: int, mon: int, mday: int, hour: int, min: int, sec: int,
                   wday: int, yday: int, isdst: bool, gmtoff: int)

  datatype Transition = Transition(gmttime: int, localtime: int, localtimeIdx: nat)

  datatype Localtime = Localtime(gmtOffset: int, isDst: bool)

  datatype Data = Data(transitions: seq<Transition>, localtimes: seq<Localtime>)

  // ----- UTC -----

  function ToUtcTime(secondsSinceEpoch: int, yday: bool): Tm
  {
    var r := Rem(secondsSinceEpoch, SECONDS_PER_DAY);
    var q := Div(secondsSinceEpoch, SECONDS_PER_DAY);
    var seconds := if r < 0 then r + SECONDS_PER_DAY else r;
    var days := if r < 0 then q - 1 else q;
    DayAndSeconds(days + JULIAN_DAY_OF_1970_01_01, seconds, yday)
  }

  function DayAndSeconds(julian: int, seconds: int, yday: bool): Tm
  {
    var minutes := seconds / 60;
    var ymd := GetYearMonthDay(julian);
    Tm(ymd.year - 1900, ymd.month - 1, ymd.day, minutes / 60, minutes % 60, seconds % 60,
       WeekDay(julian),
       if yday then julian - GetJulianDayNumber(ymd.year, 1, 1) else 0,
       false, 0)
  }

  function FromUtcTime(utc: Tm): int
  {
    var secondsInDay := utc.hour * 3600 + utc.min * 60 + utc.sec;
    var days := GetJulianDayNumber(utc.year + 1900, utc.mon + 1, utc.mday) - JULIAN_DAY_OF_1970_01_01;
    days * SECONDS_PER_DAY + secondsInDay
  }

  /** The first second of March 1st, -4800: the start of the range of the date formulas. */
  const FIRST_SECOND: int := (-32044 - JULIAN_DAY_OF_1970_01_01) * SECONDS_PER_DAY

  function DateOf(tm: Tm): YearMonthDay {
    YearMonthDay(tm.year + 1900, tm.mon + 1, tm.mday)
  }

  predicate ValidTm(tm: Tm) {
    ValidDate(DateOf(tm)) && InRange(DateOf(tm)) && 0 <= tm.hour < 24 && 0 <= tm.min < 60 && 0 <= tm.sec < 60
  }

  /** Truncating division and the correction for negative remainders amount to rounding down. */
  lemma ToUtcTimeRoundsDown(t: int, yday: bool)
    ensures ToUtcTime(t, yday) ==
            DayAndSeconds(t / SECONDS_PER_DAY + JULIAN_DAY_OF_1970_01_01, t % SECONDS_PER_DAY, yday)
  {
    hide GetJulianDayNumber, GetYearMonthDay;
    var r, q := Rem(t, SECONDS_PER_DAY), Div(t, SECONDS_PER_DAY);
    assert (if r < 0 then r + SECONDS_PER_DAY else r) == t % SECONDS_PER_DAY;
    assert (if r < 0 then q - 1 else q) == t / SECONDS_PER_DAY;
  }

  /** Every second of the range, before or after 1970, breaks down into valid fields and back. */
  lemma UtcRoundTrip(t: int, yday: bool)
    requires t >= FIRST_SECOND
    ensures ValidTm(ToUtcTime(t, yday))
    ensures FromUtcTime(ToUtcTime(t, yday)) == t
  {
    hide GetJulianDayNumber, GetYearMonthDay;
    ToUtcTimeRoundsDown(t, yday);
    YearMonthDayThenJulianDay(t / SECONDS_PER_DAY + JULIAN_DAY_OF_1970_01_01);
  }

  lemma SplitSeconds(t: int, days: int, hour: int, min: int, sec: int)
    requires 0 <= hour < 24 && 0 <= min < 60 && 0 <= sec < 60
    requires t == days * SECONDS_PER_DAY + (hour * 3600 + min * 60 + sec)
    ensures t / SECONDS_PER_DAY == days
    ensures var s := t % SECONDS_PER_DAY; s / 60 / 60 == hour && (s / 60) % 60 == min && s % 60 == sec
  {
    assert t % SECONDS_PER_DAY == hour * 3600 + min * 60 + sec;
  }

  /** The time of day, as the seconds since midnight tell it, before 1970 too. */
  lemma UtcTimeOfDay(t: int, yday: bool)
    ensures var u, s := ToUtcTime(t, yday), t % 86400;
            u.hour == s / 3600 && u.min == s % 3600 / 60 && u.sec == s % 60 && !u.isdst && u.gmtoff == 0
  {
    var s := t % 86400;
    ToUtcTimeRoundsDown(t, yday);
    hide GetJulianDayNumber, GetYearMonthDay, WeekDay, ToUtcTime;
    SplitSeconds(t, t / 86400, s / 3600, s % 3600 / 60, s % 60) by {
      SecondsInHours(s);
    }
  }

  lemma SecondsInHours(s: int)
    requires 0 <= s < 86400
    ensures 0 <= s / 3600 < 24 && 0 <= s % 3600 / 60 < 60 && s == s / 3600 * 3600 + s % 3600 / 60 * 60 + s % 60
  {
    var r := s % 3600;
    assert s == s / 3600 * 3600 + r && r == r / 60 * 60 + r % 60;
    assert s % 60 == r % 60;
  }

  /** Valid fields are recovered from the second they denote. */
  lemma UtcFieldsRoundTrip(tm: Tm)
    requires ValidTm(tm)
    ensures FromUtcTime(tm) >= FIRST_SECOND
    ensures var u := ToUtcTime(FromUtcTime(tm), false);
            DateOf(u) == DateOf(tm) && u.hour == tm.hour && u.min == tm.min && u.sec == tm.sec
  {
    hide GetJulianDayNumber, GetYearMonthDay;
    var t := FromUtcTime(tm);
    var n := JulianDay(DateOf(tm));
    JulianDayThenYearMonthDay(DateOf(tm));
    ToUtcTimeRoundsDown(t, false);
    SplitSeconds(t, n - JULIAN_DAY_OF_1970_01_01, tm.hour, tm.min, tm.sec);
  }

  /** The day on which second t falls. */
  function DayNumber(t: int): int {
    t / SECONDS_PER_DAY + JULIAN_DAY_OF_1970_01_01
  }

  /** For every second of the range: tm_yday lies within the year, and is the day of the year except in the year -4800;
      tm_wday is the day of the week, 1970-01-01 being a Thursday, exactly from day number -1 on and on the Sundays
      before it, and on the other days before it is negative. */
  lemma UtcDayCounts(t: int)
    requires t >= FIRST_SECOND
    ensures var u := ToUtcTime(t, true);
            var n := DayNumber(t);
            ValidDate(DateOf(u)) &&
            0 <= u.yday < (if IsLeap(DateOf(u).year) then 366 else 365) &&
            (u.yday == YearDay(DateOf(u)) <==> DateOf(u).year > -4800) &&
            (u.wday == (t / SECONDS_PER_DAY + 4) % 7 <==> n >= -1 || (n + 1) % 7 == 0) &&
            (0 <= u.wday < 7 <==> n >= -1 || (n + 1) % 7 == 0)
  {
    hide GetJulianDayNumber, GetYearMonthDay, WeekDay, DaysBefore;
    ToUtcTimeRoundsDown(t, true);
    var d := GetYearMonthDay(DayNumber(t));
    YearMonthDayThenJulianDay(DayNumber(t));
    WeekDayExactly(DayNumber(t));
    YearDayInRange(d);
    YearDayByNumbers(d);
    if d.year == -4800 {
      YearDayFromMarch(d);
    }
  }

  /** Both failures occur: a Friday before day 0 with a negative day of the week, and March 1st, -4800, counted as day
      59 although it is day 60 (Date.FirstYear). */
  lemma DayCountsBeforeDayZero()
    ensures ToUtcTime(Midnight(-3), true).wday == -2
    ensures ToUtcTime(Midnight(-32044), true).yday == 59
  {
    hide ToUtcTime, GetYearMonthDay, GetJulianDayNumber;
    MidnightFields(-3);
    MidnightFields(-32044);
    FirstYear();
    JulianDayThenYearMonthDay(YearMonthDay(-4800, 3, 1));
  }

  /** The first second of a day. */
  function Midnight(n: int): int {
    (n - JULIAN_DAY_OF_1970_01_01) * SECONDS_PER_DAY
  }

  lemma MidnightFields(n: int)
    ensures ToUtcTime(Midnight(n), true) == DayAndSeconds(n, 0, true)
  {
    hide DayAndSeconds, ToUtcTime;
    ToUtcTimeRoundsDown(Midnight(n), true);
  }

  lemma YearDayFromMarch(d: YearMonthDay)
    requires ValidDate(d) && d.month >= 3
    ensures YearDay(d) >= 59
  {
    DaysBeforeGrows(d.year, 3, d.month);
  }

  /** On the day numbers from 0 on, every field of every second is in range and counts what it should. */
  lemma UtcFieldsInRange(t: int)
    requires DayNumber(t) >= 0
    ensures var u := ToUtcTime(t, true);
            ValidTm(u) && u.wday == (t / SECONDS_PER_DAY + 4) % 7 && u.yday == YearDay(DateOf(u)) &&
            0 <= u.wday < 7 && 0 <= u.yday < (if IsLeap(DateOf(u).year) then 366 else 365) && FromUtcTime(u) == t
  {
    hide GetJulianDayNumber, GetYearMonthDay, ToUtcTime, YearDay, ValidDate;
    UtcRoundTrip(t, true);
    UtcDayCounts(t);
    YearFromDayZero(DateOf(ToUtcTime(t, true)), t);
  }

  lemma YearFromDayZero(d: YearMonthDay, t: int)
    requires DayNumber(t) >= 0 && ValidDate(d) && d == DateOf(ToUtcTime(t, true))
    ensures d.year > -4800
  {
    hide GetJulianDayNumber, GetYearMonthDay;
    ToUtcTimeRoundsDown(t, true);
    YearMonthDayThenJulianDay(DayNumber(t));
    if d.year <= -4800 {
      JulianDayMonotone(d, YearMonthDay(-4799, 1, 1));
      YearMinus4799();
    }
  }

  lemma YearMinus4799()
    ensures JulianDay(YearMonthDay(-4799, 1, 1)) == -31738
  {
  }

  // ----- The transition table -----

  /** What loading a file establishes: indices resolve and local times follow from the offsets. */
  predicate WellFormed(data: Data) {
    && data.localtimes != []
    && forall i :: 0 <= i < |data.transitions| ==>
         var tr := data.transitions[i];
         tr.localtimeIdx < |data.localtimes| && tr.localtime == tr.gmttime + data.localtimes[tr.localtimeIdx].gmtOffset
  }

  function Key(tr: Transition, compareGmt: bool): int {
    if compareGmt then tr.gmttime else tr.localtime
  }

  predicate Sorted(trs: seq<Transition>, compareGmt: bool) {
    forall i, j :: 0 <= i < j < |trs| ==> Key(trs[i], compareGmt) < Key(trs[j], compareGmt)
  }

  predicate StrictlyIncreasing(data: Data, compareGmt: bool) {
    Sorted(data.transitions, compareGmt)
  }

  /** std::lower_bound on [lo, hi): halve until empty. */
  function LowerBound(trs: seq<Transition>, x: int, compareGmt: bool, lo: nat, hi: nat): (i: nat)
    requires lo <= hi <= |trs|
    ensures lo <= i <= hi
    decreases hi - lo
  {
    if lo == hi then lo
    else
      var mid := lo + (hi - lo) / 2;
      if Key(trs[mid], compareGmt) < x then LowerBound(trs, x, compareGmt, mid + 1, hi)
      else LowerBound(trs, x, compareGmt, lo, mid)
  }

  /** The position findLocaltime settles on; -1 stands for the first local time type. */
  function FindTransition(trs: seq<Transition>, x: int, compareGmt: bool): (i: int)
    ensures -1 <= i < |trs|
  {
    if trs == [] || x < Key(trs[0], compareGmt) then -1
    else
      var i := LowerBound(trs, x, compareGmt, 0, |trs|);
      if i < |trs| then
        if Key(trs[i], compareGmt) != x then i - 1 else i
      else
        |trs| - 1
  }

  /** The period that starts at transition i; -1 is the time before the first transition. */
  function Period(data: Data, i: int): Localtime
    requires WellFormed(data) && -1 <= i < |data.transitions|
  {
    if i < 0 then data.localtimes[0] else data.localtimes[data.transitions[i].localtimeIdx]
  }

  function FindLocaltime(data: Data, x: int, compareGmt: bool): Localtime
    requires WellFormed(data)
  {
    Period(data, FindTransition(data.transitions, x, compareGmt))
  }

  function ToLocalTime(data: Data, seconds: int): Tm
    requires WellFormed(data)
  {
    var local := FindLocaltime(data, seconds, true);
    ToUtcTime(seconds + local.gmtOffset, true).(isdst := local.isDst, gmtoff := local.gmtOffset)
  }

  function FromLocalTime(data: Data, localTm: Tm): int
    requires WellFormed(data)
  {
    var seconds := FromUtcTime(localTm);
    var local := FindLocaltime(data, seconds, false);
    var tryTm := ToLocalTime(data, seconds - local.gmtOffset);
    if localTm.isdst && !tryTm.isdst && tryTm.hour == localTm.hour && tryTm.min == localTm.min then
      seconds - 3600 - local.gmtOffset
    else
      seconds - local.gmtOffset
  }

  // ----- Lookup finds the last transition not after the key -----

  predicate IsLastNotAfter(data: Data, x: int, compareGmt: bool, i: int) {
    && -1 <= i < |data.transitions|
    && (forall k :: 0 <= k <= i ==> Key(data.transitions[k], compareGmt) <= x)
    && (forall k :: i < k < |data.transitions| ==> x < Key(data.transitions[k], compareGmt))
  }

  /** All keys below position i are less than x, all others are not. */
  predicate Splits(trs: seq<Transition>, x: int, compareGmt: bool, below: nat, from: nat) {
    && (forall k :: 0 <= k < below && k < |trs| ==> Key(trs[k], compareGmt) < x)
    && (forall k :: from <= k < |trs| ==> Key(trs[k], compareGmt) >= x)
  }

  lemma SplitsAt(trs: seq<Transition>, x: int, compareGmt: bool, lo: nat, hi: nat, mid: nat)
    requires Sorted(trs, compareGmt) && Splits(trs, x, compareGmt, lo, hi) && mid < |trs|
    ensures if Key(trs[mid], compareGmt) < x then Splits(trs, x, compareGmt, mid + 1, hi)
            else Splits(trs, x, compareGmt, lo, mid)
  {
    hide Key;
    assert forall k :: 0 <= k < mid ==> Key(trs[k], compareGmt) < Key(trs[mid], compareGmt);
    assert forall k :: mid < k < |trs| ==> Key(trs[mid], compareGmt) < Key(trs[k], compareGmt);
  }

  lemma {:induction false} LowerBoundSplits(trs: seq<Transition>, x: int, compareGmt: bool, lo: nat, hi: nat)
    requires lo <= hi <= |trs| && Sorted(trs, compareGmt) && Splits(trs, x, compareGmt, lo, hi)
    ensures var i := LowerBound(trs, x, compareGmt, lo, hi); Splits(trs, x, compareGmt, i, i)
    decreases hi - lo
  {
    hide Key, Sorted, Splits;
    if lo < hi {
      var mid := lo + (hi - lo) / 2;
      SplitsAt(trs, x, compareGmt, lo, hi, mid);
      if Key(trs[mid], compareGmt) < x {
        LowerBoundSplits(trs, x, compareGmt, mid + 1, hi);
      } else {
        LowerBoundSplits(trs, x, compareGmt, lo, mid);
      }
    }
  }

  lemma LastNotAfterUnique(data: Data, x: int, compareGmt: bool, i: int, k: int)
    requires IsLastNotAfter(data, x, compareGmt, i) && IsLastNotAfter(data, x, compareGmt, k)
    ensures i == k
  {
    var trs := data.transitions;
    var a := if 0 <= i < |trs| then Key(trs[i], compareGmt) else x;
    var b := if 0 <= k < |trs| then Key(trs[k], compareGmt) else x;
  }

  /** The binary search agrees with "last transition not after x", whichever clock it compares. */
  lemma FindTransitionIsLastNotAfter(data: Data, x: int, compareGmt: bool)
    requires StrictlyIncreasing(data, compareGmt)
    ensures IsLastNotAfter(data, x, compareGmt, FindTransition(data.transitions, x, compareGmt))
  {
    hide LowerBound;
    var trs := data.transitions;
    if trs != [] && x >= Key(trs[0], compareGmt) {
      LowerBoundSplits(trs, x, compareGmt, 0, |trs|);
    }
  }

  /** Before the first transition the first local time type holds, afterwards that of the last transition not after the
      key. */
  lemma FindLocaltimeExactly(data: Data, x: int, compareGmt: bool, i: int)
    requires WellFormed(data) && StrictlyIncreasing(data, compareGmt) && IsLastNotAfter(data, x, compareGmt, i)
    ensures FindLocaltime(data, x, compareGmt) ==
            if i == -1 then data.localtimes[0] else data.localtimes[data.transitions[i].localtimeIdx]
  {
    FindTransitionIsLastNotAfter(data, x, compareGmt);
    LastNotAfterUnique(data, x, compareGmt, i, FindTransition(data.transitions, x, compareGmt));
  }

  // ----- Local time back to UTC -----

  /** A period may repeat the last hours of the one before it, but nothing older and nothing newer:
      transitions follow each other at least as far apart as clocks are set back. */
  predicate Spaced(data: Data)
    requires WellFormed(data)
  {
    && StrictlyIncreasing(data, true)
    && StrictlyIncreasing(data, false)
    && forall i :: -1 <= i && i + 2 < |data.transitions| ==>
         var gap := data.transitions[i + 2].gmttime - data.transitions[i + 1].gmttime;
         gap >= Period(data, i).gmtOffset - Period(data, i + 1).gmtOffset &&
         gap >= Period(data, i).gmtOffset - Period(data, i + 2).gmtOffset
  }

  /** t lies in period i, and its local reading is shown again after the clock is set back at i + 1. */
  predicate ShownTwice(data: Data, i: int, t: int)
    requires WellFormed(data) && -1 <= i < |data.transitions|
  {
    i + 1 < |data.transitions| && data.transitions[i + 1].localtime <= t + Period(data, i).gmtOffset
  }

  /** The only set-back that fromLocalTime can undo: one hour, from daylight saving to standard time. */
  predicate LeavesDstByOneHour(data: Data, i: int)
    requires WellFormed(data) && -1 <= i < |data.transitions|
  {
    i + 1 < |data.transitions| && Period(data, i).isDst && !Period(data, i + 1).isDst &&
    Period(data, i).gmtOffset == Period(data, i + 1).gmtOffset + 3600
  }

  lemma ToLocalTimeInPeriod(data: Data, t: int, i: int)
    requires WellFormed(data) && StrictlyIncreasing(data, true) && IsLastNotAfter(data, t, true, i)
    ensures ToLocalTime(data, t) == ToUtcTime(t + Period(data, i).gmtOffset, true).(isdst := Period(data, i).isDst,
            gmtoff := Period(data, i).gmtOffset)
  {
    hide ToUtcTime;
    FindTransitionIsLastNotAfter(data, t, true);
    LastNotAfterUnique(data, t, true, i, FindTransition(data.transitions, t, true));
  }

  lemma FromLocalTimeInPeriod(data: Data, tm: Tm, j: int)
    requires WellFormed(data) && StrictlyIncreasing(data, false) && IsLastNotAfter(data, FromUtcTime(tm), false, j)
    ensures var seconds := FromUtcTime(tm) - Period(data, j).gmtOffset;
            var tryTm := ToLocalTime(data, seconds);
            FromLocalTime(data, tm) ==
              if tm.isdst && !tryTm.isdst && tryTm.hour == tm.hour && tryTm.min == tm.min then seconds - 3600
              else seconds
  {
    hide FromUtcTime, ToLocalTime;
    var seconds := FromUtcTime(tm);
    FindTransitionIsLastNotAfter(data, seconds, false);
    LastNotAfterUnique(data, seconds, false, j, FindTransition(data.transitions, seconds, false));
  }

  /** In a sorted table the neighbours decide which transition is the last not after l. */
  lemma LastNotAfterByNeighbours(data: Data, l: int, compareGmt: bool, i: int)
    requires StrictlyIncreasing(data, compareGmt) && -1 <= i < |data.transitions|
    requires i >= 0 ==> Key(data.transitions[i], compareGmt) <= l
    requires i + 1 < |data.transitions| ==> l < Key(data.transitions[i + 1], compareGmt)
    ensures IsLastNotAfter(data, l, compareGmt, i)
  {
    hide Key;
    var trs := data.transitions;
    assert forall k :: i + 1 < k < |trs| ==> Key(trs[i + 1], compareGmt) < Key(trs[k], compareGmt);
    assert forall k :: 0 <= k < i ==> Key(trs[k], compareGmt) < Key(trs[i], compareGmt);
  }

  /** The local reading of t is looked up in t's own period, or in the next one when it is shown twice. */
  lemma LocalLookup(data: Data, t: int, i: int)
    requires WellFormed(data) && Spaced(data) && IsLastNotAfter(data, t, true, i)
    ensures IsLastNotAfter(data, t + Period(data, i).gmtOffset, false, if ShownTwice(data, i, t) then i + 1 else i)
  {
    hide IsLastNotAfter, StrictlyIncreasing;
    NotAfterItself(data, t, i);
    LastNotAfterByNeighbours(data, t + Period(data, i).gmtOffset, false, if ShownTwice(data, i, t) then i + 1 else i);
  }

  lemma NotAfterItself(data: Data, t: int, i: int)
    requires WellFormed(data) && IsLastNotAfter(data, t, true, i)
    ensures -1 <= i < |data.transitions|
    ensures i >= 0 ==> data.transitions[i].localtime <= t + Period(data, i).gmtOffset
    ensures i + 1 < |data.transitions| ==> t < data.transitions[i + 1].gmttime
  {
    assert i >= 0 ==> Key(data.transitions[i], true) <= t;
    assert i + 1 < |data.transitions| ==> t < Key(data.transitions[i + 1], true);
  }

  /** fromLocalTime undoes toLocalTime exactly when the local reading is unambiguous, or ambiguous by the
      one hour in which daylight saving time ends (the code's "HACK"). */
  lemma LocalRoundTripExactly(data: Data, t: int, i: int)
    requires WellFormed(data) && Spaced(data) && IsLastNotAfter(data, t, true, i)
    requires t + Period(data, i).gmtOffset >= FIRST_SECOND
    ensures FromLocalTime(data, ToLocalTime(data, t)) == t <==> (!ShownTwice(data, i, t) || LeavesDstByOneHour(data, i))
  {
    hide ToUtcTime, FromUtcTime, FindLocaltime;
    var offset := Period(data, i).gmtOffset;
    var tm := ToLocalTime(data, t);
    ToLocalTimeInPeriod(data, t, i);
    UtcRoundTrip(t + offset, true);
    IgnoresZone(ToUtcTime(t + offset, true), tm);
    LocalLookup(data, t, i);
    if ShownTwice(data, i, t) {
      var later := t + offset - Period(data, i + 1).gmtOffset;
      assert IsLastNotAfter(data, later, true, i + 1) by {
        SecondShowing(data, t, i);
      }
      ToLocalTimeInPeriod(data, later, i + 1);
      FromLocalTimeInPeriod(data, tm, i + 1);
    } else {
      FromLocalTimeInPeriod(data, tm, i);
    }
  }

  lemma IgnoresZone(u: Tm, v: Tm)
    requires v == u.(isdst := v.isdst, gmtoff := v.gmtoff)
    ensures FromUtcTime(u) == FromUtcTime(v)
  {
  }

  lemma SecondShowing(data: Data, t: int, i: int)
    requires WellFormed(data) && Spaced(data) && IsLastNotAfter(data, t, true, i) && ShownTwice(data, i, t)
    ensures IsLastNotAfter(data, t + Period(data, i).gmtOffset - Period(data, i + 1).gmtOffset, true, i + 1)
  {
    hide IsLastNotAfter, StrictlyIncreasing;
    NotAfterItself(data, t, i);
    LastNotAfterByNeighbours(data, t + Period(data, i).gmtOffset - Period(data, i + 1).gmtOffset, true, i + 1);
  }

  // ----- Tables of real time zones -----

  /** Transitions more than an hour apart, and the clock is set back only by the hour that ends
      daylight saving time. */
  predicate OnlyDstSetBacks(data: Data)
    requires WellFormed(data)
  {
    && (forall i :: 0 <= i && i + 1 < |data.transitions| ==>
          data.transitions[i + 1].gmttime - data.transitions[i].gmttime > 3600)
    && (forall i :: -1 <= i && i + 1 < |data.transitions| ==>
          Period(data, i + 1).gmtOffset < Period(data, i).gmtOffset ==> LeavesDstByOneHour(data, i))
  }

  lemma {:induction false} IncreasingFrom(data: Data, i: int, j: int)
    requires WellFormed(data) && OnlyDstSetBacks(data) && 0 <= i < j < |data.transitions|
    ensures data.transitions[i].gmttime < data.transitions[j].gmttime
    ensures data.transitions[i].localtime < data.transitions[j].localtime
    decreases j - i
  {
    var a, b := data.transitions[j - 1], data.transitions[j];
    assert Period(data, (j - 2) + 1) == Period(data, j - 1) && Period(data, (j - 1) + 1) == Period(data, j);
    assert data.transitions[(j - 1) + 1].gmttime - a.gmttime > 3600;
    assert a.localtime < b.localtime;
    if i + 1 < j {
      IncreasingFrom(data, i, j - 1);
    }
  }

  lemma SetBacksDoNotAddUp(data: Data, i: int)
    requires WellFormed(data) && OnlyDstSetBacks(data) && -1 <= i && i + 2 < |data.transitions|
    ensures Period(data, i).gmtOffset - Period(data, i + 1).gmtOffset <= 3600
    ensures Period(data, i).gmtOffset - Period(data, i + 2).gmtOffset <= 3600
    ensures data.transitions[i + 2].gmttime - data.transitions[i + 1].gmttime > 3600
  {
    assert data.transitions[(i + 1) + 1].gmttime - data.transitions[i + 1].gmttime > 3600;
    assert Period(data, (i + 1) + 1) == Period(data, i + 2);
  }

  lemma DstTablesAreSorted(data: Data, compareGmt: bool)
    requires WellFormed(data) && OnlyDstSetBacks(data)
    ensures StrictlyIncreasing(data, compareGmt)
  {
    forall i, j | 0 <= i < j < |data.transitions|
      ensures Key(data.transitions[i], compareGmt) < Key(data.transitions[j], compareGmt)
    {
      hide OnlyDstSetBacks, WellFormed;
      IncreasingFrom(data, i, j);
    }
  }

  lemma DstTablesAreSpaced(data: Data)
    requires WellFormed(data) && OnlyDstSetBacks(data)
    ensures Spaced(data)
  {
    hide OnlyDstSetBacks, StrictlyIncreasing;
    DstTablesAreSorted(data, true);
    DstTablesAreSorted(data, false);
    forall i | -1 <= i && i + 2 < |data.transitions|
      ensures var gap := data.transitions[i + 2].gmttime - data.transitions[i + 1].gmttime;
              gap >= Period(data, i).gmtOffset - Period(data, i + 1).gmtOffset &&
              gap >= Period(data, i).gmtOffset - Period(data, i + 2).gmtOffset
    {
      SetBacksDoNotAddUp(data, i);
    }
  }

  /** For such tables every second survives the trip to local time and back, the repeated hour included. */
  lemma LocalRoundTrip(data: Data, t: int)
    requires WellFormed(data) && OnlyDstSetBacks(data)
    requires t + FindLocaltime(data, t, true).gmtOffset >= FIRST_SECOND
    ensures FromLocalTime(data, ToLocalTime(data, t)) == t
  {
    hide ToLocalTime, FromLocalTime;
    DstTablesAreSpaced(data);
    FindTransitionIsLastNotAfter(data, t, true);
    var i := FindTransition(data.transitions, t, true);
    LocalRoundTripExactly(data, t, i);
    if ShownTwice(data, i, t) && i + 1 < |data.transitions| {
      assert Key(data.transitions[i + 1], true) > t;
      assert data.transitions[i + 1].localtime == data.transitions[i + 1].gmttime + Period(data, i + 1).gmtOffset;
    }
  }

  /** A change of standard time by one hour, as many zones have had, is not undone for the first showing
      of the repeated hour. */
  lemma StandardTimeSetBackIsLost()
    ensures var data := Data([Transition(100_000, 96_400, 1)], [Localtime(0, false), Localtime(-3600, false)]);
            WellFormed(data) && FromLocalTime(data, ToLocalTime(data, 99_000)) != 99_000
  {
    hide ToLocalTime, FromLocalTime;
    var data := Data([Transition(100_000, 96_400, 1)], [Localtime(0, false), Localtime(-3600, false)]);
    assert data.transitions[0].localtime == 96_400;
    LocalRoundTripExactly(data, 99_000, -1);
  }
}

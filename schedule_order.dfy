/** The pure part of the schedule page (src/components/SchedulePage.tsx):
    `compareTimes`, the weekday-then-time order of the schedule list, and
    the per-day grouping the page renders. */
module ScheduleOrder {
  import opened Base
  import opened Text
  import opened Records
  import opened Sorting

  /** `Number` of the first `:`-separated piece of a time string. */
  function HourPart(t: string): Option<int> {
    NumberValue(Before(t, ':'))
  }

  /** `Number` of the second piece; None (undefined) when there is no colon. */
  function MinutePart(t: string): Option<int> {
    match After(t, ':')
    case None => None
    case Some(rest) => NumberValue(Before(rest, ':'))
  }

  /** `compareTimes(a, b)`: the hour difference when the hours differ,
      otherwise the minute difference; None stands for NaN. */
  function CompareTimes(a: string, b: string): Option<int> {
    Difference(HourPart(a), MinutePart(a), HourPart(b), MinutePart(b))
  }

  /** The arithmetic of `compareTimes` on the parsed pieces; NaN is
      unequal to everything and absorbs subtraction. */
  function Difference(ha: Option<int>, ma: Option<int>, hb: Option<int>, mb: Option<int>): Option<int> {
    if ha.None? || hb.None? then None
    else if ha.value != hb.value then Some(ha.value - hb.value)
    else if ma.None? || mb.None? then None
    else Some(ma.value - mb.value)
  }

  /** The value of a two-digit string. */
  lemma TwoDigitValue(d: string)
    requires |d| == 2 && IsDigit(d[0]) && IsDigit(d[1])
    ensures NumberValue(d) == Some(10 * (d[0] as int - '0' as int) + (d[1] as int - '0' as int))
  {
    TrimPlain(d);
    assert d[..1] == [d[0]];
    assert DigitsValue([d[0]]) == d[0] as int - '0' as int by {
      assert [d[0]][..0] == [];
    }
  }

  /** The first piece of a string with a colon in third place is its first two characters. */
  lemma BeforeColon(t: string)
    requires |t| >= 3 && t[0] != ':' && t[1] != ':' && t[2] == ':'
    ensures Before(t, ':') == [t[0], t[1]]
  {
    assert Before(t[2..], ':') == [];
    assert Before(t[1..], ':') == [t[1]] + Before(t[2..], ':');
  }

  /** A two-character string without a colon is its own first piece. */
  lemma BeforeTwoChars(m: string)
    requires |m| == 2 && m[0] != ':' && m[1] != ':'
    ensures Before(m, ':') == [m[0], m[1]]
  {
    assert Before(m[1..][1..], ':') == [];
  }

  /** Two digits and a colon give an hour piece worth those two digits. */
  lemma HourDigits(t: string)
    requires |t| == 5 && IsDigit(t[0]) && IsDigit(t[1]) && t[2] == ':'
    ensures HourPart(t) == Some(ClockHour(t))
  {
    var p := [t[0], t[1]];
    TwoDigitValue(p);
    BeforeColon(t);
    HourFromPiece(t, ClockHour(t));
  }

  /** The hour piece's value is the hour part. */
  lemma HourFromPiece(t: string, v: int)
    requires NumberValue(Before(t, ':')) == Some(v)
    ensures HourPart(t) == Some(v)
  {
  }

  lemma HourOfClock(t: string)
    requires IsClock(t)
    ensures HourPart(t) == Some(ClockHour(t))
  {
    HourDigits(t);
  }

  lemma AfterClock(t: string)
    requires IsClock(t)
    ensures After(t, ':') == Some(t[3..])
  {
    BeforeColon(t);
  }

  lemma MinutePartAfter(t: string, rest: string)
    requires After(t, ':') == Some(rest)
    ensures MinutePart(t) == NumberValue(Before(rest, ':'))
  {
  }

  /** The piece after the colon of `HH:MM` is worth the two minute digits. */
  lemma MinuteDigits(t: string)
    requires |t| == 5 && IsDigit(t[3]) && IsDigit(t[4])
    ensures NumberValue(Before(t[3..], ':')) == Some(ClockMinute(t))
  {
    var p := [t[3], t[4]];
    TwoDigitValue(p);
    var m := t[3..];
    assert m[0] == t[3] && m[1] == t[4];
    BeforeTwoChars(m);
  }

  lemma MinuteOfClock(t: string)
    requires IsClock(t)
    ensures MinutePart(t) == Some(ClockMinute(t))
  {
    AfterClock(t);
    MinuteDigits(t);
    MinutePartAfter(t, t[3..]);
  }

  /** The two pieces of an `HH:MM` string are its hour and its minute. */
  lemma ClockParts(t: string)
    requires IsClock(t)
    ensures HourPart(t) == Some(ClockHour(t)) && MinutePart(t) == Some(ClockMinute(t))
  {
    HourOfClock(t);
    MinuteOfClock(t);
  }

  /** Hour-then-minute difference has the sign of the minutes-since-midnight difference. */
  lemma LexicographicSign(ha: int, ma: int, hb: int, mb: int)
    requires 0 <= ma < 60 && 0 <= mb < 60
    ensures Sign(if ha != hb then ha - hb else ma - mb) == Sign((60 * ha + ma) - (60 * hb + mb))
  {
  }

  /** On well-formed times, `compareTimes` orders by minutes since midnight. */
  lemma CompareClockTimes(a: string, b: string)
    requires IsClock(a) && IsClock(b)
    ensures CompareTimes(a, b).Some?
    ensures Sign(CompareTimes(a, b).value) == Sign(ClockMinutes(a) - ClockMinutes(b))
  {
    var ha, ma, hb, mb := ClockHour(a), ClockMinute(a), ClockHour(b), ClockMinute(b);
    ClockParts(a);
    ClockParts(b);
    CompareFromParts(a, b, ha, ma, hb, mb);
    DifferenceSign(ha, ma, hb, mb);
  }

  /** `compareTimes` on strings whose pieces are known numbers. */
  lemma CompareFromParts(a: string, b: string, ha: int, ma: int, hb: int, mb: int)
    requires HourPart(a) == Some(ha) && MinutePart(a) == Some(ma)
    requires HourPart(b) == Some(hb) && MinutePart(b) == Some(mb)
    ensures CompareTimes(a, b) == Difference(Some(ha), Some(ma), Some(hb), Some(mb))
  {
  }

  /** On numbers, `compareTimes`' difference has the sign of the minutes apart. */
  lemma DifferenceSign(ha: int, ma: int, hb: int, mb: int)
    requires 0 <= ma < 60 && 0 <= mb < 60
    ensures Difference(Some(ha), Some(ma), Some(hb), Some(mb)).Some?
    ensures Sign(Difference(Some(ha), Some(ma), Some(hb), Some(mb)).value) == Sign((60 * ha + ma) - (60 * hb + mb))
  {
    LexicographicSign(ha, ma, hb, mb);
  }

  /** Two well-formed times at the same minute are the same string. */
  lemma ClockMinutesInjective(a: string, b: string)
    requires IsClock(a) && IsClock(b) && ClockMinutes(a) == ClockMinutes(b)
    ensures a == b
  {
    assert ClockHour(a) == ClockHour(b);
    assert a[0] == b[0] && a[1] == b[1] && a[3] == b[3] && a[4] == b[4];
  }

  /** The comparator as `sort` sees it: NaN counts as 0. */
  function TimeOrder(a: string, b: string): int {
    CompareTimes(a, b).GetOr(0)
  }

  /** `dayOrder.indexOf(day)`: the position in Monday..Sunday, -1 if absent. */
  function DayIndex(day: string): (r: int)
    ensures -1 <= r < 7
    ensures r == -1 <==> day !in WeekOrder
    ensures r >= 0 ==> WeekOrder[r] == day
  {
    if day == "Monday" then 0
    else if day == "Tuesday" then 1
    else if day == "Wednesday" then 2
    else if day == "Thursday" then 3
    else if day == "Friday" then 4
    else if day == "Saturday" then 5
    else if day == "Sunday" then 6
    else -1
  }

  /** The comparator of the schedule list: weekday position first, then time. */
  function CompareSchedules(a: Schedule, b: Schedule): int {
    var da, db := DayIndex(a.day), DayIndex(b.day);
    if da != db then da - db else TimeOrder(a.time, b.time)
  }

  /** `data.sort(...)` with that comparator. */
  function SortSchedules(list: seq<Schedule>): (r: seq<Schedule>)
    ensures multiset(r) == multiset(list)
  {
    SortBy(list, CompareSchedules)
  }

  /** Minutes since midnight of a well-formed time; 0 for any other string. */
  function TimeKey(t: string): int {
    if IsClock(t) then ClockMinutes(t) else 0
  }

  /** Minutes since Monday 00:00, with unknown days a week before Monday. */
  function ScheduleKey(s: Schedule): int {
    DayIndex(s.day) * 1440 + TimeKey(s.time)
  }

  predicate AllClockTimes(list: seq<Schedule>) {
    forall s :: s in list ==> IsClock(s.time)
  }

  lemma ScheduleOrderConsistent(list: seq<Schedule>)
    requires AllClockTimes(list)
    ensures ConsistentWith(CompareSchedules, ScheduleKey, list)
  {
    forall a, b | a in list && b in list
      ensures Sign(CompareSchedules(a, b)) == Sign(ScheduleKey(a) - ScheduleKey(b))
    {
      SchedulePairOrder(a, b);
    }
  }

  /** For two schedules with well-formed times, the comparator has the sign of
      the difference of their keys. */
  lemma SchedulePairOrder(a: Schedule, b: Schedule)
    requires IsClock(a.time) && IsClock(b.time)
    ensures Sign(CompareSchedules(a, b)) == Sign(ScheduleKey(a) - ScheduleKey(b))
  {
    CompareClockTimes(a.time, b.time);
    DayThenMinute(DayIndex(a.day), DayIndex(b.day), TimeKey(a.time), TimeKey(b.time));
  }

  /** Day first, then minute of the day, is the order of minutes of the week. */
  lemma DayThenMinute(da: int, db: int, ta: int, tb: int)
    requires 0 <= ta < 1440 && 0 <= tb < 1440
    ensures da != db ==> Sign(da - db) == Sign((da * 1440 + ta) - (db * 1440 + tb))
    ensures da == db ==> (da * 1440 + ta) - (db * 1440 + tb) == ta - tb
  {
  }

  /** When every time is well formed, the sorted list is a permutation of the
      input ordered by weekday (unknown days first) and then by time. */
  lemma SortedSchedules(list: seq<Schedule>)
    requires AllClockTimes(list)
    ensures multiset(SortSchedules(list)) == multiset(list)
    ensures forall i, j :: 0 <= i < j < |SortSchedules(list)| ==>
      var a, b := SortSchedules(list)[i], SortSchedules(list)[j];
      DayIndex(a.day) < DayIndex(b.day)
      || (DayIndex(a.day) == DayIndex(b.day) && TimeKey(a.time) <= TimeKey(b.time))
  {
    ScheduleOrderConsistent(list);
    SortBySorted(list, CompareSchedules, ScheduleKey);
    var r := SortSchedules(list);
    forall i, j | 0 <= i < j < |r|
      ensures DayIndex(r[i].day) < DayIndex(r[j].day)
        || (DayIndex(r[i].day) == DayIndex(r[j].day) && TimeKey(r[i].time) <= TimeKey(r[j].time))
    {
      assert r[i] in multiset(list) && r[j] in multiset(list);
      assert ScheduleKey(r[i]) <= ScheduleKey(r[j]);
    }
  }

  /** One row of the rendered grid: a time and what is due then. */
  datatype Entry = Entry(id: string, supplement: string)
  datatype TimeSlot = TimeSlot(time: string, entries: seq<Entry>)
  datatype DayGroup = DayGroup(day: string, slots: seq<TimeSlot>)

  function OnDay(list: seq<Schedule>, day: string): (r: seq<Schedule>)
    ensures forall s :: s in r <==> s in list && s.day == day
  {
    Filter((s: Schedule) => s.day == day, list)
  }

  function AtTime(list: seq<Schedule>, time: string): (r: seq<Schedule>)
    ensures forall s :: s in r <==> s in list && s.time == time
  {
    Filter((s: Schedule) => s.time == time, list)
  }

  function Times(list: seq<Schedule>): (r: seq<string>)
    ensures |r| == |list| && forall i :: 0 <= i < |list| ==> r[i] == list[i].time
  {
    seq(|list|, i requires 0 <= i < |list| => list[i].time)
  }

  function Entries(list: seq<Schedule>): (r: seq<Entry>)
    ensures |r| == |list| && forall i :: 0 <= i < |list| ==> r[i] == Entry(list[i].id, list[i].supplement)
  {
    seq(|list|, i requires 0 <= i < |list| => Entry(list[i].id, list[i].supplement))
  }

  /** The distinct times of a day, sorted with `compareTimes`. */
  function DayTimes(list: seq<Schedule>, day: string): seq<string> {
    SortBy(Dedup(Times(OnDay(list, day))), TimeOrder)
  }

  function Slot(list: seq<Schedule>, day: string, time: string): TimeSlot {
    TimeSlot(time, Entries(AtTime(OnDay(list, day), time)))
  }

  function GroupDay(list: seq<Schedule>, day: string): DayGroup {
    var times := DayTimes(list, day);
    DayGroup(day, seq(|times|, k requires 0 <= k < |times| => Slot(list, day, times[k])))
  }

  /** `groupedSchedules`: one group per weekday, Monday first. */
  function Grouped(list: seq<Schedule>): (r: seq<DayGroup>)
    ensures |r| == 7 && forall i :: 0 <= i < 7 ==> r[i].day == WeekOrder[i]
  {
    seq(7, i requires 0 <= i < 7 => GroupDay(list, WeekOrder[i]))
  }

  /** Each day's times are distinct, and are exactly the times of that day's schedules. */
  lemma DayTimesDistinct(list: seq<Schedule>, day: string)
    ensures Distinct(DayTimes(list, day))
    ensures forall t :: t in DayTimes(list, day) <==> exists s :: s in list && s.day == day && s.time == t
  {
    SortedTimes(Dedup(Times(OnDay(list, day))));
    DayTimeSources(list, day);
  }

  /** Sorting distinct times keeps them distinct and keeps the same times. */
  lemma SortedTimes(d: seq<string>)
    requires Distinct(d)
    ensures Distinct(SortBy(d, TimeOrder))
    ensures forall t :: t in SortBy(d, TimeOrder) <==> t in d
  {
    var times := SortBy(d, TimeOrder);
    DistinctPermutation(d, times);
    forall t ensures t in times <==> t in d {
      assert t in times <==> t in multiset(times);
    }
  }

  /** The times listed for a day are the times of that day's schedules. */
  lemma DayTimeSources(list: seq<Schedule>, day: string)
    ensures forall t :: t in Times(OnDay(list, day)) <==> exists s :: s in list && s.day == day && s.time == t
  {
    var on := OnDay(list, day);
    forall t | t in Times(on) ensures exists s :: s in list && s.day == day && s.time == t {
      var i :| 0 <= i < |on| && Times(on)[i] == t;
      assert on[i] in list;
    }
    forall s | s in list && s.day == day ensures s.time in Times(on) {
      TimeOfDaySchedule(on, s);
    }
  }

  lemma TimeOfDaySchedule(on: seq<Schedule>, s: Schedule)
    requires s in on
    ensures s.time in Times(on)
  {
    var i :| 0 <= i < |on| && on[i] == s;
    assert Times(on)[i] == s.time;
  }

  /** Every string of `ts` is a well-formed `HH:MM` time. */
  predicate ClockList(ts: seq<string>) {
    forall t :: t in ts ==> IsClock(t)
  }

  /** Well-formed times in strictly increasing clock order. */
  predicate StrictlyEarlier(ts: seq<string>) {
    forall i, j :: 0 <= i < j < |ts| ==> IsClock(ts[i]) && IsClock(ts[j]) && ClockMinutes(ts[i]) < ClockMinutes(ts[j])
  }

  /** On well-formed times, `compareTimes` orders by minutes since midnight. */
  lemma TimeOrderConsistent(ts: seq<string>)
    requires ClockList(ts)
    ensures ConsistentWith(TimeOrder, TimeKey, ts)
  {
    forall a, b | a in ts && b in ts ensures Sign(TimeOrder(a, b)) == Sign(TimeKey(a) - TimeKey(b)) {
      CompareClockTimes(a, b);
    }
  }

  /** Two different well-formed times in key order are strictly earlier. */
  lemma StrictPair(a: string, b: string)
    requires IsClock(a) && IsClock(b) && a != b && TimeKey(a) <= TimeKey(b)
    ensures ClockMinutes(a) < ClockMinutes(b)
  {
    if ClockMinutes(a) == ClockMinutes(b) {
      ClockMinutesInjective(a, b);
    }
  }

  /** Sorting distinct well-formed times with `compareTimes` puts them in clock order. */
  lemma SortClockTimes(ts: seq<string>)
    requires ClockList(ts) && Distinct(ts)
    ensures StrictlyEarlier(SortBy(ts, TimeOrder))
  {
    TimeOrderConsistent(ts);
    SortBySorted(ts, TimeOrder, TimeKey);
    var r := SortBy(ts, TimeOrder);
    DistinctPermutation(ts, r);
    forall t | t in r ensures IsClock(t) {
      assert t in multiset(ts);
    }
    SortedClocksStrictly(r);
  }

  /** Distinct well-formed times sorted by their key are strictly increasing. */
  lemma SortedClocksStrictly(r: seq<string>)
    requires ClockList(r) && Distinct(r) && SortedByKey(r, TimeKey)
    ensures StrictlyEarlier(r)
  {
    forall i, j | 0 <= i < j < |r|
      ensures IsClock(r[i]) && IsClock(r[j]) && ClockMinutes(r[i]) < ClockMinutes(r[j])
    {
      StrictPair(r[i], r[j]);
    }
  }

  /** The distinct times of a day come from that day's schedules. */
  lemma DayTimesAreClocks(list: seq<Schedule>, day: string)
    requires AllClockTimes(list)
    ensures ClockList(Dedup(Times(OnDay(list, day))))
  {
    var on := OnDay(list, day);
    forall t | t in Times(on) ensures IsClock(t) {
      var i :| 0 <= i < |on| && Times(on)[i] == t;
      assert on[i] in list;
    }
  }

  /** When every time is well formed, each day's times are in clock order. */
  lemma DayTimesSorted(list: seq<Schedule>, day: string)
    requires AllClockTimes(list)
    ensures StrictlyEarlier(DayTimes(list, day))
  {
    DayTimesAreClocks(list, day);
    SortClockTimes(Dedup(Times(OnDay(list, day))));
  }

  /** The `k`-th slot of a weekday's group is the slot of that day's `k`-th time. */
  lemma GroupSlot(list: seq<Schedule>, i: int, k: int)
    requires 0 <= i < 7 && 0 <= k < |DayTimes(list, WeekOrder[i])|
    ensures |Grouped(list)[i].slots| == |DayTimes(list, WeekOrder[i])|
    ensures Grouped(list)[i].slots[k] == Slot(list, WeekOrder[i], DayTimes(list, WeekOrder[i])[k])
  {
    assert Grouped(list)[i] == GroupDay(list, WeekOrder[i]);
  }

  /** A schedule is an entry of the slot of its own day and time. */
  lemma SlotHolds(list: seq<Schedule>, s: Schedule)
    requires s in list
    ensures Entry(s.id, s.supplement) in Slot(list, s.day, s.time).entries
  {
    var at := AtTime(OnDay(list, s.day), s.time);
    var i :| 0 <= i < |at| && at[i] == s;
    assert Entries(at)[i] == Entry(s.id, s.supplement);
  }

  /** Every schedule whose day is a weekday name appears, by id and
      supplement, in the slot of its own day and time. */
  lemma GroupedPlacesEverySchedule(list: seq<Schedule>, s: Schedule)
    requires s in list && s.day in WeekOrder
    ensures var g := Grouped(list)[DayIndex(s.day)];
      exists k :: 0 <= k < |g.slots| && g.slots[k].time == s.time && Entry(s.id, s.supplement) in g.slots[k].entries
  {
    var i := DayIndex(s.day);
    DayTimesDistinct(list, s.day);
    var times := DayTimes(list, s.day);
    assert s.time in times;
    var k :| 0 <= k < |times| && times[k] == s.time;
    GroupSlot(list, i, k);
    SlotHolds(list, s);
  }

  /** Every entry of a slot comes from a schedule with that day and time. */
  lemma GroupedEntriesBelong(list: seq<Schedule>, i: int, k: int, e: Entry)
    requires 0 <= i < 7
    requires 0 <= k < |Grouped(list)[i].slots| && e in Grouped(list)[i].slots[k].entries
    ensures exists s :: (s in list && s.day == WeekOrder[i] && s.time == Grouped(list)[i].slots[k].time
      && e == Entry(s.id, s.supplement))
  {
    var day := WeekOrder[i];
    var g := Grouped(list)[i];
    assert g == GroupDay(list, day);
    var time := g.slots[k].time;
    assert g.slots[k] == Slot(list, day, time);
    var at := AtTime(OnDay(list, day), time);
    var j :| 0 <= j < |at| && Entries(at)[j] == e;
    assert at[j] in at;
  }
}

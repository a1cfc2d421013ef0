/** The stateful part of the schedule page (src/components/SchedulePage.tsx):
    the list of schedules the page holds, its optimistic add and delete, and
    the once-a-minute check that raises a reminder for every schedule due
    now, at most once per schedule and date. The session-storage keys the
    check has set are the `shown` field. */
module SchedulePage {
  import opened Base
  import opened Records
  import opened ScheduleOrder

  /** The session-storage key that marks a reminder as raised. */
  function NotificationKey(id: string, date: string): (k: string)
    ensures |k| == |"notificationShown-"| + |id| + 1 + |date|
  {
    "notificationShown-" + id + "-" + date
  }

  /** On one date, different schedule ids give different keys. */
  lemma KeyDeterminesId(id1: string, id2: string, date: string)
    requires NotificationKey(id1, date) == NotificationKey(id2, date)
    ensures id1 == id2
  {
    var n := |"notificationShown-"|;
    var k := NotificationKey(id1, date);
    assert |id1| == |id2|;
    assert id1 == k[n..n + |id1|];
  }

  /** What the check reads from the clock: the weekday's English name, the
      `HH:MM` time and the locale date string. */
  datatype Moment = Moment(day: string, time: string, date: string)

  /** A schedule is due when its day and time strings equal the current ones. */
  predicate Due(s: Schedule, now: Moment) {
    s.day == now.day && s.time == now.time
  }

  function KeyOf(s: Schedule, now: Moment): string {
    NotificationKey(s.id, now.date)
  }

  /** `mappingData[schedule.supplement]` read for truthiness: an absent entry
      and motor 0 both mean no motor, and give the mapping warning. */
  function MotorFor(mapping: map<string, int>, supplement: string): (m: Option<int>)
    ensures m.Some? <==> supplement in mapping && mapping[supplement] != 0
    ensures m.Some? ==> m.value == mapping[supplement]
  {
    if supplement in mapping && mapping[supplement] != 0 then Some(mapping[supplement]) else None
  }

  /** One raised reminder: the schedule, its supplement, and the motor the
      dispense step would use (None: the mapping warning is shown instead). */
  datatype Notice = Notice(id: string, supplement: string, motor: Option<int>)

  /** What a check has produced so far: the reminders, and the keys now set. */
  datatype Checked = Checked(notices: seq<Notice>, shown: set<string>)

  function NoticeOf(s: Schedule, mapping: map<string, int>): Notice {
    Notice(s.id, s.supplement, MotorFor(mapping, s.supplement))
  }

  /** One turn of the loop. */
  function Step(c: Checked, s: Schedule, now: Moment, mapping: map<string, int>): Checked {
    if Due(s, now) && KeyOf(s, now) !in c.shown then
      Checked(c.notices + [NoticeOf(s, mapping)], c.shown + {KeyOf(s, now)})
    else c
  }

  /** The loop over the whole list, starting from the keys already set. */
  function Check(list: seq<Schedule>, now: Moment, mapping: map<string, int>, shown: set<string>): Checked
    decreases |list|
  {
    if list == [] then Checked([], shown)
    else Step(Check(list[..|list| - 1], now, mapping, shown), list[|list| - 1], now, mapping)
  }

  /** The keys of the due schedules of a list. */
  function DueKeys(list: seq<Schedule>, now: Moment): set<string> {
    set s | s in list && Due(s, now) :: KeyOf(s, now)
  }

  /** A due schedule whose key the session has not seen. */
  predicate Fresh(s: Schedule, now: Moment, shown: set<string>) {
    Due(s, now) && KeyOf(s, now) !in shown
  }

  /** No schedule id is reminded of twice. */
  predicate DistinctIds(ns: seq<Notice>) {
    forall i, j :: 0 <= i < j < |ns| ==> ns[i].id != ns[j].id
  }

  /** After a check every due schedule's key is set, and no other key is added. */
  lemma {:induction false} CheckShown(list: seq<Schedule>, now: Moment, mapping: map<string, int>, shown: set<string>)
    ensures Check(list, now, mapping, shown).shown == shown + DueKeys(list, now)
  {
    if list != [] {
      var init, x := list[..|list| - 1], list[|list| - 1];
      CheckShown(init, now, mapping, shown);
      assert list == init + [x];
      assert DueKeys(list, now) == DueKeys(init, now) + (if Due(x, now) then {KeyOf(x, now)} else {});
    }
  }

  /** Every reminder of a check is for a fresh due schedule, and carries
      that schedule's supplement and motor. */
  lemma {:induction false} NoticesAreFresh(list: seq<Schedule>, now: Moment, mapping: map<string, int>, shown: set<string>)
    ensures forall n :: n in Check(list, now, mapping, shown).notices ==>
      exists s :: s in list && Fresh(s, now, shown) && n == NoticeOf(s, mapping)
  {
    if list != [] {
      var init, x := list[..|list| - 1], list[|list| - 1];
      assert list == init + [x];
      NoticesAreFresh(init, now, mapping, shown);
      CheckShown(init, now, mapping, shown);
      var before := Check(init, now, mapping, shown);
      forall n | n in Check(list, now, mapping, shown).notices
        ensures exists s :: s in list && Fresh(s, now, shown) && n == NoticeOf(s, mapping)
      {
        if n !in before.notices {
          assert Fresh(x, now, shown) && n == NoticeOf(x, mapping);
        }
      }
    }
  }

  /** Every fresh due schedule of the list gets a reminder for its id. */
  lemma {:induction false} FreshAreNoticed(list: seq<Schedule>, now: Moment, mapping: map<string, int>, shown: set<string>)
    ensures forall s :: s in list && Fresh(s, now, shown) ==>
      exists n :: n in Check(list, now, mapping, shown).notices && n.id == s.id
  {
    if list != [] {
      var init, x := list[..|list| - 1], list[|list| - 1];
      assert list == init + [x];
      FreshAreNoticed(init, now, mapping, shown);
      CheckShown(init, now, mapping, shown);
      var before := Check(init, now, mapping, shown);
      var ns := Check(list, now, mapping, shown).notices;
      assert forall n :: n in before.notices ==> n in ns;
      if Fresh(x, now, shown) && !Fresh(x, now, before.shown) {
        var t :| t in init && Due(t, now) && KeyOf(t, now) == KeyOf(x, now);
        KeyDeterminesId(t.id, x.id, now.date);
        assert Fresh(t, now, shown);
      }
      if Fresh(x, now, before.shown) {
        assert ns[|ns| - 1] == NoticeOf(x, mapping);
      }
    }
  }

  /** No schedule id is reminded of twice in one check. */
  lemma {:induction false} NoticesDistinct(list: seq<Schedule>, now: Moment, mapping: map<string, int>, shown: set<string>)
    ensures DistinctIds(Check(list, now, mapping, shown).notices)
  {
    if list != [] {
      var init, x := list[..|list| - 1], list[|list| - 1];
      NoticesDistinct(init, now, mapping, shown);
      var before := Check(init, now, mapping, shown);
      if Fresh(x, now, before.shown) {
        NoticesAreFresh(init, now, mapping, shown);
        CheckShown(init, now, mapping, shown);
        forall i | 0 <= i < |before.notices| ensures before.notices[i].id != x.id {
          var m := before.notices[i];
          assert m in before.notices;
          var s :| s in init && Fresh(s, now, shown) && m == NoticeOf(s, mapping);
          assert KeyOf(s, now) in before.shown;
        }
      }
    }
  }

  /** Once every due schedule's key is set, a check raises nothing and sets nothing. */
  lemma {:induction false} SilentWhenAllShown(list: seq<Schedule>, now: Moment, mapping: map<string, int>, shown: set<string>)
    requires DueKeys(list, now) <= shown
    ensures Check(list, now, mapping, shown) == Checked([], shown)
  {
    if list != [] {
      var init, x := list[..|list| - 1], list[|list| - 1];
      assert list == init + [x];
      assert DueKeys(init, now) <= DueKeys(list, now);
      SilentWhenAllShown(init, now, mapping, shown);
      assert !Fresh(x, now, shown);
    }
  }

  /** Checking again at the same moment, after a check, raises nothing. */
  lemma RepeatIsSilent(list: seq<Schedule>, now: Moment, mapping: map<string, int>, shown: set<string>)
    ensures var after := Check(list, now, mapping, shown).shown;
      Check(list, now, mapping, after) == Checked([], after)
  {
    CheckShown(list, now, mapping, shown);
    SilentWhenAllShown(list, now, mapping, Check(list, now, mapping, shown).shown);
  }

  /** The page's state: the schedule list it shows and the session-storage
      keys the reminders have set. */
  class Page {
    var schedules: seq<Schedule>
    var shown: set<string>

    constructor ()
      ensures schedules == [] && shown == {}
    {
      schedules := [];
      shown := {};
    }

    /** `fetchSchedules`: a successful fetch replaces the list with the
      server's list sorted by weekday and time; a failure (None) only
      shows an error. */
    method FetchSchedules(data: Option<seq<Schedule>>)
      modifies this`schedules
      ensures data.Some? ==> schedules == SortSchedules(data.value)
      ensures data.None? ==> schedules == old(schedules)
    {
      if data.Some? {
        schedules := SortSchedules(data.value);
      }
    }

    /** `addSchedule` with the outcome of its POST: the new schedule is added
      and the list re-sorted; a failed request then removes every schedule
      with the new one's id. */
    method AddSchedule(s: Schedule, apiOk: bool)
      modifies this`schedules
      ensures apiOk ==> schedules == SortSchedules(old(schedules) + [s])
      ensures !apiOk ==> schedules == Filter((x: Schedule) => x.id != s.id, SortSchedules(old(schedules) + [s]))
    {
      schedules := SortSchedules(schedules + [s]);
      if !apiOk {
        schedules := Filter((x: Schedule) => x.id != s.id, schedules);
      }
    }

    /** `deleteSchedule` with the outcome of its DELETE: every schedule with
      that id goes, and comes back if the request fails. */
    method DeleteSchedule(id: string, apiOk: bool)
      modifies this`schedules
      ensures apiOk ==> schedules == Filter((x: Schedule) => x.id != id, old(schedules))
      ensures !apiOk ==> schedules == old(schedules)
    {
      var original := schedules;
      schedules := Filter((x: Schedule) => x.id != id, schedules);
      if !apiOk {
        schedules := original;
      }
    }

    /** `checkSchedules` at the moment `now`, with the mapping the page
      fetches when a reminder needs it (`{}` when that fetch fails). */
    method CheckSchedules(now: Moment, mapping: map<string, int>) returns (notices: seq<Notice>)
      modifies this`shown
      ensures Checked(notices, shown) == Check(schedules, now, mapping, old(shown))
    {
      notices := [];
      for i := 0 to |schedules|
        invariant Checked(notices, shown) == Check(schedules[..i], now, mapping, old(shown))
      {
        var s := schedules[i];
        if s.day == now.day && s.time == now.time {
          var key := NotificationKey(s.id, now.date);
          if key !in shown {
            notices := notices + [Notice(s.id, s.supplement, MotorFor(mapping, s.supplement))];
            shown := shown + {key};
          }
        }
        assert schedules[..i + 1][..i] == schedules[..i];
      }
      assert schedules[..|schedules|] == schedules;
    }
  }

  /** A failed add whose id was new leaves the same schedules as before. */
  lemma FailedAddRestores(list: seq<Schedule>, s: Schedule)
    requires forall x :: x in list ==> x.id != s.id
    ensures multiset(Filter((x: Schedule) => x.id != s.id, SortSchedules(list + [s]))) == multiset(list)
  {
    var p := (x: Schedule) => x.id != s.id;
    var sorted := SortSchedules(list + [s]);
    assert multiset(sorted) == multiset(list) + multiset{s};
    forall x ensures multiset(Filter(p, sorted))[x] == multiset(list)[x] {
      FilterCount(p, sorted, x);
      if !p(x) {
        assert x !in list;
      }
    }
  }

  /** A successful delete leaves no schedule with that id and keeps every other one. */
  lemma DeleteRemovesOnlyThatId(list: seq<Schedule>, id: string)
    ensures var r := Filter((x: Schedule) => x.id != id, list);
      (forall x :: x in r ==> x.id != id) && (forall x :: x in list && x.id != id ==> x in r)
      && (forall x: Schedule :: x.id != id ==> multiset(r)[x] == multiset(list)[x])
  {
    var p := (x: Schedule) => x.id != id;
    forall x: Schedule | x.id != id ensures multiset(Filter(p, list))[x] == multiset(list)[x] {
      FilterCount(p, list, x);
    }
  }
}

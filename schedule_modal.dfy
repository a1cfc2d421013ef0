/** The dialog that creates schedules (src/components/ScheduleModal.tsx): one
    supplement, a set of weekdays, a time and a pill count give one schedule
    per chosen weekday. `Date.now()` and `Math.random()` are inputs. */
module ScheduleModal {
  import opened Base
  import opened Text
  import opened Records

  /** What one schedule draws from the clock and the random generator: the
      clock reading in its id, the random suffix of its id, and its
      `timestamp` (a separate clock reading). */
  datatype Token = Token(idClock: int, suffix: string, stamp: int)

  predicate NoSpace(s: string) {
    forall i :: 0 <= i < |s| ==> !IsSpace(s[i])
  }

  /** The generated id: clock, day, supplement name with each white-space run
      made one hyphen, random suffix, joined by hyphens. */
  function ScheduleId(t: Token, day: string, name: string): string {
    ShowInt(t.idClock) + "-" + day + "-" + Hyphenate(name) + "-" + t.suffix
  }

  /** Whatever white space the supplement name holds, the id holds none,
      unless the day or the random suffix brings some. */
  lemma IdWithoutSpace(t: Token, day: string, name: string)
    ensures NoSpace(ScheduleId(t, day, name)) <==> NoSpace(day) && NoSpace(t.suffix)
  {
    var c := ShowInt(t.idClock);
    assert NoSpace(c) by {
      var m: nat := if t.idClock < 0 then -t.idClock else t.idClock;
      if t.idClock < 0 {
        assert c == "-" + ShowNat(m);
      }
    }
    var h := Hyphenate(name);
    HyphenateNoSpace(name);
    var id := c + "-" + day + "-" + h + "-" + t.suffix;
    var o1 := |c| + 1;
    var o2 := o1 + |day| + 1 + |h| + 1;
    if NoSpace(id) {
      forall i | 0 <= i < |day| ensures !IsSpace(day[i]) {
        assert id[o1 + i] == day[i];
      }
      forall i | 0 <= i < |t.suffix| ensures !IsSpace(t.suffix[i]) {
        assert id[o2 + i] == t.suffix[i];
      }
    }
  }

  /** The weekday checkboxes give names without white space. */
  lemma WeekdaysWithoutSpace()
    ensures forall d :: d in WeekOrder ==> NoSpace(d)
  {
    forall d | d in WeekOrder ensures NoSpace(d) {
      assert d == "Monday" || d == "Tuesday" || d == "Wednesday" || d == "Thursday"
        || d == "Friday" || d == "Saturday" || d == "Sunday";
    }
  }

  /** The schedule created for one day. */
  function NewSchedule(name: string, day: string, time: string, quantity: int, t: Token): Schedule {
    Schedule(ScheduleId(t, day, name), name, day, time, Some(t.stamp), Some(quantity), None)
  }

  /** Why `handleSubmit` stops: the checks run in this order and the first
      failure is reported. */
  datatype Invalid = NoSupplement | NoDays | NoTime | BadQuantity

  function Validate(supplement: string, days: seq<string>, time: string, quantity: int): (r: Option<Invalid>)
    ensures r == Some(NoSupplement) <==> supplement == ""
    ensures r == Some(NoDays) <==> supplement != "" && days == []
    ensures r == Some(NoTime) <==> supplement != "" && days != [] && time == ""
    ensures r == Some(BadQuantity) <==> supplement != "" && days != [] && time != "" && quantity <= 0
    ensures r.None? <==> supplement != "" && days != [] && time != "" && quantity > 0
  {
    if supplement == "" then Some(NoSupplement)
    else if days == [] then Some(NoDays)
    else if time == "" then Some(NoTime)
    else if quantity <= 0 then Some(BadQuantity)
    else None
  }

  /** `handleDayChange`: add the day if absent, remove it if present. */
  function Toggle(days: seq<string>, day: string): (r: seq<string>)
    ensures day in r <==> day !in days
    ensures forall d :: d != day ==> (d in r <==> d in days)
  {
    if day in days then Filter((d: string) => d != day, days) else days + [day]
  }

  /** Toggling keeps the chosen days free of repeats. */
  lemma ToggleKeepsDistinct(days: seq<string>, day: string)
    requires Distinct(days)
    ensures Distinct(Toggle(days, day))
  {
    if day in days {
      FilterPairwise((d: string) => d != day, (a: string, b: string) => a != b, days);
    }
  }

  /** Toggling a day twice gives back the same choice; for a day that was not
      chosen, the very same list. */
  lemma ToggleTwice(days: seq<string>, day: string)
    ensures forall d :: d in Toggle(Toggle(days, day), day) <==> d in days
    ensures day !in days ==> Toggle(Toggle(days, day), day) == days
  {
    if day !in days {
      var p := (d: string) => d != day;
      FilterAppend(p, days, [day]);
      FilterKeepsAll(p, days);
      assert Filter(p, [day]) == [] by {
        assert Filter(p, [day]) == (if p(day) then [day] else []) + Filter(p, [day][1..]);
      }
    }
  }

  /** `Math.max(1, parseInt(text, 10) || 1)`: NaN and 0 become 1, and anything
      below 1 is raised to 1. */
  function ClampQuantity(text: string): (q: int)
    ensures q >= 1
    ensures ParseInt(text).Some? && ParseInt(text).value >= 1 ==> q == ParseInt(text).value
    ensures ParseInt(text).None? || ParseInt(text).value < 1 ==> q == 1
  {
    var p := ParseInt(text);
    if p.None? || p.value == 0 then 1 else if p.value < 1 then 1 else p.value
  }

  datatype Submitted = Rejected(reason: Invalid) | Emitted(schedules: seq<Schedule>)

  /** The dialog's form state. */
  class Dialog {
    var supplement: string
    var days: seq<string>
    var time: string
    var quantity: int

    /** The chosen days never repeat. */
    predicate Valid()
      reads this
    {
      Distinct(days)
    }

    constructor ()
      ensures Valid() && supplement == "" && days == [] && time == "" && quantity == 1
    {
      supplement, days, time, quantity := "", [], "", 1;
    }

    method ToggleDay(day: string)
      requires Valid()
      modifies this`days
      ensures Valid() && days == Toggle(old(days), day)
    {
      ToggleKeepsDistinct(days, day);
      days := Toggle(days, day);
    }

    /** The pill-count input's `onChange`. */
    method SetQuantity(text: string)
      modifies this`quantity
      ensures quantity == ClampQuantity(text) && quantity >= 1
    {
      quantity := ClampQuantity(text);
    }

    /** `handleSubmit`, given one token per chosen day: a rejected form is
      left as it is; an accepted one emits one schedule per chosen day, in
      the order the days were chosen, and is reset. */
    method Submit(tokens: seq<Token>) returns (r: Submitted)
      requires Valid() && |tokens| == |days|
      modifies this
      ensures Valid()
      ensures var v := Validate(old(supplement), old(days), old(time), old(quantity));
        if v.Some? then
          r == Rejected(v.value) && supplement == old(supplement) && days == old(days)
          && time == old(time) && quantity == old(quantity)
        else
          r.Emitted? && |r.schedules| == |old(days)|
          && (forall k :: 0 <= k < |old(days)| ==>
                r.schedules[k] == NewSchedule(old(supplement), old(days)[k], old(time), old(quantity), tokens[k]))
          && supplement == "" && days == [] && time == "" && quantity == 1
    {
      var v := Validate(supplement, days, time, quantity);
      if v.Some? {
        return Rejected(v.value);
      }
      var emitted := EmitSchedules(supplement, days, time, quantity, tokens);
      r := Emitted(emitted);
      supplement, days, time, quantity := "", [], "", 1;
    }
  }

  /** The `forEach` of `handleSubmit`: one schedule per chosen day, in order. */
  method EmitSchedules(name: string, days: seq<string>, time: string, quantity: int, tokens: seq<Token>)
    returns (emitted: seq<Schedule>)
    requires |tokens| == |days|
    ensures |emitted| == |days|
    ensures forall k :: 0 <= k < |days| ==> emitted[k] == NewSchedule(name, days[k], time, quantity, tokens[k])
  {
    emitted := [];
    for i := 0 to |days|
      invariant |emitted| == i
      invariant forall k :: 0 <= k < i ==> emitted[k] == NewSchedule(name, days[k], time, quantity, tokens[k])
    {
      emitted := emitted + [NewSchedule(name, days[i], time, quantity, tokens[i])];
    }
  }

  /** The schedules of one submission are on distinct days, and share the
      supplement, the time and the pill count. */
  lemma EmittedPerDay(name: string, days: seq<string>, time: string, quantity: int, tokens: seq<Token>, r: seq<Schedule>)
    requires Distinct(days) && |tokens| == |days| && |r| == |days|
    requires forall k :: 0 <= k < |days| ==> r[k] == NewSchedule(name, days[k], time, quantity, tokens[k])
    ensures forall i, j :: 0 <= i < j < |r| ==> r[i].day != r[j].day
    ensures forall d :: d in days <==> exists s :: s in r && s.day == d
    ensures forall s :: s in r ==> s.supplement == name && s.time == time && s.quantity == Some(quantity)
  {
    forall d | d in days ensures exists s :: s in r && s.day == d {
      var k :| 0 <= k < |days| && days[k] == d;
      assert r[k].day == d;
    }
  }
}

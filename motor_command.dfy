/** The dose command the dispenser polls for
    (src/app/api/esp32/motor-command/route.ts). The route reads the schedule
    list and an ARRAY of mapping records; here both arrive as parameters, and
    the clock reading arrives as a weekday number, an hour and a minute. The
    route writes nothing: the same poll within the same minute gets the same
    command again. */
module MotorCommand {
  import opened Base
  import opened Text
  import opened Records

  /** One element of the mapping array this route expects. */
  datatype MappingRecord = MappingRecord(
    dispenserId: string,
    supplementId: string,
    motorId: int,
    rotationsPerPill: int)

  datatype DoseCommand = DoseCommand(
    motorId: int,
    rotations: int,
    supplement: string,
    scheduleId: string,
    quantity: int,
    rotationsPerPill: int)

  /** The four bodies the route answers with (all with HTTP status 200). */
  datatype Response =
    | NoSchedulesConfigured
    | NoMappingsConfigured
    | Dispense(command: DoseCommand)
    | NoCommandDue(checkedTime: string, checkedDay: string)

  /** `getDayStringForSchedule`: the name of weekday `dayNumber`, Sunday first. */
  function DayName(dayNumber: int): string
    requires 0 <= dayNumber < 7
  {
    ["Sunday", "Monday", "Tuesday", "Wednesday", "Thursday", "Friday", "Saturday"][dayNumber]
  }

  /** The Sunday-first numbering of `getDay()` names the same seven days as the
      Monday-first order the pages use, shifted by one. */
  lemma DayNameInWeekOrder(dayNumber: int)
    requires 0 <= dayNumber < 7
    ensures DayName(dayNumber) == WeekOrder[(dayNumber + 6) % 7]
  {
  }

  /** The current time string: two-digit hour, a colon, two-digit minute. */
  function TimeString(hour: int, minute: int): (r: string)
    requires 0 <= hour < 24 && 0 <= minute < 60
    ensures IsClock(r) && ClockHour(r) == hour && ClockMinute(r) == minute
  {
    TwoDigits(hour);
    TwoDigits(minute);
    PadStart2(ShowNat(hour)) + ":" + PadStart2(ShowNat(minute))
  }

  /** A schedule is due when its day equals the current day ignoring case and
      its time string equals the current time string exactly. */
  predicate IsDue(s: Schedule, currentDay: string, currentTime: string) {
    ToLower(s.day) == ToLower(currentDay) && s.time == currentTime
  }

  /** `mappings.find(m => m.supplementId === supplement)`. */
  function FindMapping(mappings: seq<MappingRecord>, supplement: string): (r: Option<MappingRecord>)
    ensures r.None? <==> forall m :: m in mappings ==> m.supplementId != supplement
    ensures r.Some? ==> exists i :: (0 <= i < |mappings| && mappings[i] == r.value
      && r.value.supplementId == supplement
      && forall j :: 0 <= j < i ==> mappings[j].supplementId != supplement)
  {
    if mappings == [] then None
    else if mappings[0].supplementId == supplement then Some(mappings[0])
    else
      var r := FindMapping(mappings[1..], supplement);
      assert forall m :: m in mappings ==> m == mappings[0] || m in mappings[1..];
      if r.Some? then
        var i :| 0 <= i < |mappings| - 1 && mappings[1..][i] == r.value
          && r.value.supplementId == supplement
          && forall j :: 0 <= j < i ==> mappings[1..][j].supplementId != supplement;
        assert mappings[i + 1] == r.value;
        r
      else r
  }

  /** `schedule.quantity || 1`: an absent or zero quantity counts as one pill. */
  function EffectiveQuantity(quantity: Option<int>): int {
    if quantity.None? || quantity.value == 0 then 1 else quantity.value
  }

  /** The command built for a matched schedule and its mapping record. */
  function CommandFor(s: Schedule, m: MappingRecord): (c: DoseCommand)
    ensures c.quantity != 0
    ensures c.rotations == c.quantity * m.rotationsPerPill
    ensures s.quantity.Some? && s.quantity.value != 0 ==> c.quantity == s.quantity.value
    ensures s.quantity.None? || s.quantity.value == 0 ==> c.quantity == 1
    ensures c.motorId == m.motorId && c.rotationsPerPill == m.rotationsPerPill
    ensures c.supplement == s.supplement && c.scheduleId == s.id
  {
    var quantity := EffectiveQuantity(s.quantity);
    DoseCommand(m.motorId, quantity * m.rotationsPerPill, s.supplement, s.id, quantity, m.rotationsPerPill)
  }

  /** A due schedule whose supplement has a mapping record. */
  predicate Dispatchable(s: Schedule, mappings: seq<MappingRecord>, currentDay: string, currentTime: string) {
    IsDue(s, currentDay, currentTime) && FindMapping(mappings, s.supplement).Some?
  }

  /** Schedule `i` is dispatchable and none before it is. */
  predicate IsFirstDispatchable(
    schedules: seq<Schedule>, i: int, mappings: seq<MappingRecord>, currentDay: string, currentTime: string)
    requires 0 <= i < |schedules|
  {
    && Dispatchable(schedules[i], mappings, currentDay, currentTime)
    && forall j :: 0 <= j < i ==> !Dispatchable(schedules[j], mappings, currentDay, currentTime)
  }

  /** The command for schedule `i`, given that its supplement has a mapping. */
  function CommandAt(schedules: seq<Schedule>, i: int, mappings: seq<MappingRecord>): Option<DoseCommand>
    requires 0 <= i < |schedules|
  {
    var m := FindMapping(mappings, schedules[i].supplement);
    if m.Some? then Some(CommandFor(schedules[i], m.value)) else None
  }

  /** The command for the first dispatchable schedule in list order. */
  function FirstCommand(schedules: seq<Schedule>, mappings: seq<MappingRecord>, currentDay: string, currentTime: string)
    : Option<DoseCommand>
  {
    if schedules == [] then None
    else if Dispatchable(schedules[0], mappings, currentDay, currentTime) then
      Some(CommandFor(schedules[0], FindMapping(mappings, schedules[0].supplement).value))
    else FirstCommand(schedules[1..], mappings, currentDay, currentTime)
  }

  /** There is a command exactly when some schedule is dispatchable, and then it
      is the one built from the FIRST dispatchable schedule: due schedules
      without a mapping are skipped, later dispatchable ones are ignored. */
  lemma FirstCommandIsFirstDispatchable(
    schedules: seq<Schedule>, mappings: seq<MappingRecord>, currentDay: string, currentTime: string)
    ensures FirstCommand(schedules, mappings, currentDay, currentTime).Some?
      <==> exists i :: 0 <= i < |schedules| && Dispatchable(schedules[i], mappings, currentDay, currentTime)
    ensures forall i :: 0 <= i < |schedules| && IsFirstDispatchable(schedules, i, mappings, currentDay, currentTime)
               ==> FirstCommand(schedules, mappings, currentDay, currentTime) == CommandAt(schedules, i, mappings)
  {
    FirstCommandExists(schedules, mappings, currentDay, currentTime);
    FirstCommandAtFirst(schedules, mappings, currentDay, currentTime);
  }

  lemma {:induction false} FirstCommandExists(
    schedules: seq<Schedule>, mappings: seq<MappingRecord>, currentDay: string, currentTime: string)
    ensures FirstCommand(schedules, mappings, currentDay, currentTime).Some?
      <==> exists i :: 0 <= i < |schedules| && Dispatchable(schedules[i], mappings, currentDay, currentTime)
  {
    if schedules != [] {
      FirstCommandExists(schedules[1..], mappings, currentDay, currentTime);
      if !Dispatchable(schedules[0], mappings, currentDay, currentTime) {
        ShiftExists(schedules, mappings, currentDay, currentTime);
      }
    }
  }

  lemma {:induction false} FirstCommandAtFirst(
    schedules: seq<Schedule>, mappings: seq<MappingRecord>, currentDay: string, currentTime: string)
    ensures forall i :: 0 <= i < |schedules| && IsFirstDispatchable(schedules, i, mappings, currentDay, currentTime)
               ==> FirstCommand(schedules, mappings, currentDay, currentTime) == CommandAt(schedules, i, mappings)
  {
    if schedules != [] {
      FirstCommandAtFirst(schedules[1..], mappings, currentDay, currentTime);
      if !Dispatchable(schedules[0], mappings, currentDay, currentTime) {
        forall i | 0 <= i < |schedules| && IsFirstDispatchable(schedules, i, mappings, currentDay, currentTime)
          ensures FirstCommand(schedules, mappings, currentDay, currentTime) == CommandAt(schedules, i, mappings)
        {
          ShiftFirst(schedules, i, mappings, currentDay, currentTime);
        }
      }
    }
  }

  /** Behind a head that is not dispatchable, some schedule is dispatchable
      exactly when some schedule of the tail is. */
  lemma ShiftExists(schedules: seq<Schedule>, mappings: seq<MappingRecord>, currentDay: string, currentTime: string)
    requires schedules != [] && !Dispatchable(schedules[0], mappings, currentDay, currentTime)
    ensures (exists i :: 0 <= i < |schedules| && Dispatchable(schedules[i], mappings, currentDay, currentTime))
      <==> (exists i :: 0 <= i < |schedules[1..]| && Dispatchable(schedules[1..][i], mappings, currentDay, currentTime))
  {
    var rest := schedules[1..];
    forall i | 0 < i < |schedules| ensures schedules[i] == rest[i - 1] { }
    if exists i :: 0 <= i < |schedules| && Dispatchable(schedules[i], mappings, currentDay, currentTime) {
      var i :| 0 <= i < |schedules| && Dispatchable(schedules[i], mappings, currentDay, currentTime);
      assert Dispatchable(rest[i - 1], mappings, currentDay, currentTime);
    }
  }

  /** Behind a head that is not dispatchable, the first dispatchable schedule
      is the first dispatchable one of the tail, one place further on. */
  lemma ShiftFirst(
    schedules: seq<Schedule>, i: int, mappings: seq<MappingRecord>, currentDay: string, currentTime: string)
    requires 0 <= i < |schedules| && !Dispatchable(schedules[0], mappings, currentDay, currentTime)
    requires IsFirstDispatchable(schedules, i, mappings, currentDay, currentTime)
    ensures 0 < i && IsFirstDispatchable(schedules[1..], i - 1, mappings, currentDay, currentTime)
    ensures CommandAt(schedules[1..], i - 1, mappings) == CommandAt(schedules, i, mappings)
  {
    var rest := schedules[1..];
    assert rest[i - 1] == schedules[i];
    assert forall j :: 0 <= j < i - 1 ==> rest[j] == schedules[j + 1];
  }

  /** `GET`: the empty-store statuses first (schedules before mappings), then a
      scan that stops at the first due schedule with a mapping. */
  method Get(
    schedules: seq<Schedule>, mappings: seq<MappingRecord>, dayNumber: int, hour: int, minute: int)
    returns (r: Response)
    requires 0 <= dayNumber < 7 && 0 <= hour < 24 && 0 <= minute < 60
    ensures |schedules| == 0 ==> r == NoSchedulesConfigured
    ensures |schedules| > 0 && |mappings| == 0 ==> r == NoMappingsConfigured
    ensures |schedules| > 0 && |mappings| > 0 ==>
      match FirstCommand(schedules, mappings, DayName(dayNumber), TimeString(hour, minute))
      case Some(c) => r == Dispense(c)
      case None => r == NoCommandDue(TimeString(hour, minute), DayName(dayNumber))
  {
    if |schedules| == 0 {
      return NoSchedulesConfigured;
    }
    if |mappings| == 0 {
      return NoMappingsConfigured;
    }
    var currentDay := DayName(dayNumber);
    var currentTime := TimeString(hour, minute);
    var command: Option<DoseCommand> := None;
    for i := 0 to |schedules|
      invariant command.None? ==>
        FirstCommand(schedules, mappings, currentDay, currentTime)
          == FirstCommand(schedules[i..], mappings, currentDay, currentTime)
      invariant command.Some? ==> command == FirstCommand(schedules, mappings, currentDay, currentTime)
    {
      var s := schedules[i];
      assert schedules[i..][1..] == schedules[i + 1..];
      if IsDue(s, currentDay, currentTime) {
        var m := FindMapping(mappings, s.supplement);
        if m.Some? {
          command := Some(CommandFor(s, m.value));
          break;
        }
      }
    }
    if command.Some? {
      r := Dispense(command.value);
    } else {
      r := NoCommandDue(currentTime, currentDay);
    }
  }

  /** Matching is exact to the minute: a schedule due at one clock reading is
      not due at any other hour or minute of that day. */
  lemma ExactMinute(s: Schedule, day: string, hour: int, minute: int, hour': int, minute': int)
    requires 0 <= hour < 24 && 0 <= minute < 60 && 0 <= hour' < 24 && 0 <= minute' < 60
    requires IsDue(s, day, TimeString(hour, minute))
    requires hour != hour' || minute != minute'
    ensures !IsDue(s, day, TimeString(hour', minute'))
  {
  }

  /** A schedule is due on at most one weekday. */
  lemma DueOnOneWeekday(s: Schedule, d: int, d': int, time: string)
    requires 0 <= d < 7 && 0 <= d' < 7
    requires IsDue(s, DayName(d), time) && IsDue(s, DayName(d'), time)
    ensures d == d'
  {
    LowerDayName(d);
    LowerDayName(d');
  }

  lemma LowerDayName(d: int)
    requires 0 <= d < 7
    ensures ToLower(DayName(d)) == ["sunday", "monday", "tuesday", "wednesday", "thursday", "friday", "saturday"][d]
  {
  }
}

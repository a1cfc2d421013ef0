/** The records the application keeps in its JSON files (src/types.ts and
    the interfaces the routes declare), and the `HH:MM` time format. */
module Records {
  import opened Base
  import opened Text

  /** A dosing schedule. `timestamp` is the value `Number()` gives the stored
      field (None where that is NaN, as for an absent field); `quantity` is
      optional because records written before the field existed lack it;
      `lastExecutedAt` is declared but no code ever sets it. */
  datatype Schedule = Schedule(
    id: string,
    supplement: string,
    day: string,
    time: string,
    timestamp: Option<int>,
    quantity: Option<int>,
    lastExecutedAt: Option<int>)

  /** A catalogue entry; `quantity` is the remaining count the device reports. */
  datatype Supplement = Supplement(id: string, name: string, quantity: Option<int>)

  /** A registered account. */
  datatype User = User(username: string, password: string)

  /** The weekday names in the Monday-first order the pages sort and group by. */
  const WeekOrder: seq<string> :=
    ["Monday", "Tuesday", "Wednesday", "Thursday", "Friday", "Saturday", "Sunday"]

  /** `HH:MM` with a two-digit hour below 24 and a two-digit minute below 60. */
  predicate IsClock(t: string) {
    && |t| == 5 && IsDigit(t[0]) && IsDigit(t[1]) && t[2] == ':' && IsDigit(t[3]) && IsDigit(t[4])
    && ClockHour(t) < 24 && ClockMinute(t) < 60
  }

  function ClockHour(t: string): int
    requires |t| == 5
  {
    10 * (t[0] as int - '0' as int) + (t[1] as int - '0' as int)
  }

  function ClockMinute(t: string): int
    requires |t| == 5
  {
    10 * (t[3] as int - '0' as int) + (t[4] as int - '0' as int)
  }

  /** Minutes since midnight of a well-formed time. */
  function ClockMinutes(t: string): int
    requires IsClock(t)
  {
    60 * ClockHour(t) + ClockMinute(t)
  }
}

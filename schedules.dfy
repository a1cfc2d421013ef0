/** The schedule list route (src/app/api/schedules/route.ts): the whole list,
    or only the schedules created after a given moment, and appending one
    schedule. */
module Schedules {
  import opened Base
  import opened Text
  import opened Records
  import opened Store

  datatype Response =
    | Listed(schedules: seq<Schedule>)   // 200
    | Created(schedule: Schedule)        // 201
    | NotANumber                         // 400, `Number(lastUpdated)` is NaN
    | NotATimestamp                      // 400, `parseInt(lastUpdated)` is NaN
    | BadRequest                         // 400, POST body rejected
    | ServerError                        // 500

  function Status(r: Response): int {
    match r
    case Listed(_) => 200
    case Created(_) => 201
    case NotANumber => 400
    case NotATimestamp => 400
    case BadRequest => 400
    case ServerError => 500
  }

  /** The schedules whose numeric timestamp is later than `since`, in list order. */
  function NewerThan(schedules: seq<Schedule>, since: int): (r: seq<Schedule>)
    ensures forall s :: s in r <==> s in schedules && s.timestamp.Some? && s.timestamp.value > since
    ensures |r| <= |schedules|
  {
    Filter((s: Schedule) => s.timestamp.Some? && s.timestamp.value > since, schedules)
  }

  /** GET with the `lastUpdated` query parameter (None when absent). An absent
      or empty parameter lists everything; one that `Number` rejects, or that
      `parseInt` cannot read (white space only), is 400. */
  function List(schedules: seq<Schedule>, lastUpdated: Option<string>): (r: Response)
    ensures lastUpdated.None? || lastUpdated.value == "" ==> r == Listed(schedules)
    ensures lastUpdated.Some? && lastUpdated.value != "" ==>
      if !IsNumeric(lastUpdated.value) then r == NotANumber
      else if ParseInt(lastUpdated.value).None? then r == NotATimestamp
      else r == Listed(NewerThan(schedules, ParseInt(lastUpdated.value).value))
  {
    if lastUpdated.None? || lastUpdated.value == "" then Listed(schedules)
    else if !IsNumeric(lastUpdated.value) then NotANumber
    else
      match ParseInt(lastUpdated.value)
      case None => NotATimestamp
      case Some(since) => Listed(NewerThan(schedules, since))
  }

  /** A parameter of white space only passes the `Number` test (it is 0) but
      not the `parseInt` one. */
  lemma BlankParameterIsNotATimestamp(schedules: seq<Schedule>)
    ensures List(schedules, Some(" ")) == NotATimestamp
  {
    var blank := " ";
    assert IsSpace(blank[0]);
    assert TrimStart(blank) == TrimStart(blank[1..]) == [];
    assert Trim(blank) == [];
    assert IsNumeric(blank);
    assert DigitPrefix([]) == [];
    assert ParseInt(blank) == None;
  }

  /** A client that polls with the timestamp `String(t)` receives exactly the
      schedules created after `t`, in stored order. */
  lemma PollAfter(schedules: seq<Schedule>, t: int)
    ensures List(schedules, Some(ShowInt(t))) == Listed(NewerThan(schedules, t))
  {
    ParseIntShowInt(t);
    NumberValueShowInt(t);
    NumberValueIsNumeric(ShowInt(t));
  }

  /** A schedule appended with a timestamp later than the last poll is
      delivered by the next poll, after the earlier ones that qualify. */
  lemma {:induction false} NewScheduleIsDelivered(schedules: seq<Schedule>, s: Schedule, since: int)
    requires s.timestamp.Some? && s.timestamp.value > since
    ensures NewerThan(schedules + [s], since) == NewerThan(schedules, since) + [s]
  {
    FilterAppend((x: Schedule) => x.timestamp.Some? && x.timestamp.value > since, schedules, [s]);
  }

  /** What `request.json()` produced for a POST. */
  datatype ScheduleBody =
    | Unparsable                 // `request.json()` throws
    | Falsy                      // `null`, `false`, `0` or `""`
    | MissingStrings             // one of id, supplement, day, time is not a string
    | Record(schedule: Schedule) // the body is stored as it came

  /** The handlers over the schedule file; a failed write answers 500 and
      leaves the file as it was. */
  method Get(d: DataDir, lastUpdated: Option<string>) returns (r: Response)
    ensures r == List(ReadOr(d.schedules, []), lastUpdated)
  {
    r := List(ReadOr(d.schedules, []), lastUpdated);
  }

  method Post(d: DataDir, body: ScheduleBody, writeOk: bool) returns (r: Response)
    modifies d`schedules
    ensures body.Unparsable? ==> r == ServerError && d.schedules == old(d.schedules)
    ensures body.Falsy? || body.MissingStrings? ==> r == BadRequest && d.schedules == old(d.schedules)
    ensures body.Record? && writeOk ==>
      r == Created(body.schedule) && d.schedules == Holds(ReadOr(old(d.schedules), []) + [body.schedule])
    ensures body.Record? && !writeOk ==> r == ServerError && d.schedules == old(d.schedules)
  {
    match body
    case Unparsable =>
      r := ServerError;
    case Falsy =>
      r := BadRequest;
    case MissingStrings =>
      r := BadRequest;
    case Record(s) =>
      var schedules := ReadOr(d.schedules, []);
      if writeOk {
        d.schedules := Holds(schedules + [s]);
        r := Created(s);
      } else {
        r := ServerError;
      }
  }
}

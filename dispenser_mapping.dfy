/** The supplement-to-motor mapping file and its route
    (src/app/api/dispenser-mapping/route.ts): a JSON object from supplement
    name to motor number. */
module DispenserMapping {
  import opened Base
  import opened Store

  /** What `request.json()` produced for a POST. */
  datatype PostBody =
    | Unparsable                        // `request.json()` throws
    | NullBody                          // `null`
    | NotAnObject                       // a number, string or boolean
    | ObjectBody(entries: map<string, int>)

  datatype Response =
    | Current(mapping: map<string, int>)   // 200, GET
    | Created(entries: map<string, int>)   // 201, POST echoes its body
    | Deleted(name: string)                // 200, one entry removed
    | ResetAll                             // 200, every entry removed
    | BadRequest                           // 400
    | NotFound(name: string)               // 404
    | ServerError                          // 500

  function Status(r: Response): int {
    match r
    case Current(_) => 200
    case Created(_) => 201
    case Deleted(_) => 200
    case ResetAll => 200
    case BadRequest => 400
    case NotFound(_) => 404
    case ServerError => 500
  }

  /** `{ ...existing, ...incoming }`: the incoming entries win. */
  function Merge(existing: map<string, int>, incoming: map<string, int>): (r: map<string, int>)
    ensures r.Keys == existing.Keys + incoming.Keys
    ensures forall k :: k in incoming ==> r[k] == incoming[k]
    ensures forall k :: k in existing && k !in incoming ==> r[k] == existing[k]
  {
    existing + incoming
  }

  /** A POST body is accepted when it is a non-null object with at least one key. */
  predicate Acceptable(body: PostBody) {
    body.ObjectBody? && |body.entries| > 0
  }

  /** What DELETE does to the stored mapping. */
  datatype DeletePlan =
    | ResetPlan                         // no name given: write `{}`
    | Unmapped                          // 404
    | RemovePlan(rest: map<string, int>)

  /** DELETE with an own-key membership test: an absent or empty
      `supplementName` resets everything, an unmapped name is 404, a mapped
      one is removed and nothing else changes. */
  function PlanDelete(existing: map<string, int>, name: Option<string>): (p: DeletePlan)
    ensures p.ResetPlan? <==> name.None? || name.value == ""
    ensures p.Unmapped? <==> name.Some? && name.value != "" && name.value !in existing
    ensures p.RemovePlan? ==> (name.Some? && name.value in existing
      && p.rest.Keys == existing.Keys - {name.value}
      && forall k :: k in p.rest ==> p.rest[k] == existing[k])
  {
    if name.None? || name.value == "" then ResetPlan
    else if name.value !in existing then Unmapped
    else RemovePlan(existing - {name.value})
  }

  /** The property names every plain object inherits from `Object.prototype`,
      which the `in` operator reports as present. */
  const PrototypeKeys: set<string> := {
    "constructor", "hasOwnProperty", "isPrototypeOf", "propertyIsEnumerable",
    "toLocaleString", "toString", "valueOf", "__proto__",
    "__defineGetter__", "__defineSetter__", "__lookupGetter__", "__lookupSetter__"
  }

  /** `key in object` on a plain object: own keys and inherited ones. */
  predicate InOperator(m: map<string, int>, key: string) {
    key in m || key in PrototypeKeys
  }

  /** DELETE as written: the membership test is the `in` operator, and
      `delete` of an inherited name removes nothing. */
  function PlanDeleteAsWritten(existing: map<string, int>, name: Option<string>): (p: DeletePlan)
    ensures name.Some? && name.value != "" && name.value !in PrototypeKeys
      ==> p == PlanDelete(existing, name)
  {
    if name.None? || name.value == "" then ResetPlan
    else if !InOperator(existing, name.value) then Unmapped
    else RemovePlan(existing - {name.value})
  }

  /** The discrepancy: deleting `toString` from an empty mapping is reported
      as a successful removal instead of 404. */
  lemma InheritedNameIsNotNotFound()
    ensures PlanDeleteAsWritten(map[], Some("toString")) == RemovePlan(map[])
    ensures PlanDelete(map[], Some("toString")) == Unmapped
  {
    assert "toString" in PrototypeKeys;
  }

  /** The file and the HTTP handlers. A handler whose write fails answers 500
      and leaves the file as it was. */
  method Get(d: DataDir) returns (r: Response)
    ensures r == Current(ReadOr(d.mapping, map[])) && Status(r) == 200
  {
    r := Current(ReadOr(d.mapping, map[]));
  }

  method Post(d: DataDir, body: PostBody, writeOk: bool) returns (r: Response)
    modifies d`mapping
    ensures body.Unparsable? ==> r == ServerError && d.mapping == old(d.mapping)
    ensures !body.Unparsable? && !Acceptable(body) ==> r == BadRequest && d.mapping == old(d.mapping)
    ensures Acceptable(body) && writeOk ==>
      r == Created(body.entries) && d.mapping == Holds(Merge(ReadOr(old(d.mapping), map[]), body.entries))
    ensures Acceptable(body) && !writeOk ==> r == ServerError && d.mapping == old(d.mapping)
  {
    if body.Unparsable? {
      return ServerError;
    }
    if !Acceptable(body) {
      return BadRequest;
    }
    var existing := ReadOr(d.mapping, map[]);
    var updated := Merge(existing, body.entries);
    if !writeOk {
      return ServerError;
    }
    d.mapping := Holds(updated);
    r := Created(body.entries);
  }

  method Delete(d: DataDir, name: Option<string>, writeOk: bool) returns (r: Response)
    modifies d`mapping
    ensures match PlanDelete(ReadOr(old(d.mapping), map[]), name)
      case ResetPlan =>
        if writeOk then r == ResetAll && d.mapping == Holds(map[])
        else r == ServerError && d.mapping == old(d.mapping)
      case Unmapped => r == NotFound(name.value) && d.mapping == old(d.mapping)
      case RemovePlan(rest) =>
        if writeOk then r == Deleted(name.value) && d.mapping == Holds(rest)
        else r == ServerError && d.mapping == old(d.mapping)
  {
    var plan := PlanDelete(ReadOr(d.mapping, map[]), name);
    match plan
    case ResetPlan =>
      if writeOk {
        d.mapping := Holds(map[]);
        r := ResetAll;
      } else {
        r := ServerError;
      }
    case Unmapped =>
      r := NotFound(name.value);
    case RemovePlan(rest) =>
      if writeOk {
        d.mapping := Holds(rest);
        r := Deleted(name.value);
      } else {
        r := ServerError;
      }
  }

  /** Removing a name and then removing it again answers 404 the second time. */
  lemma DeleteTwice(existing: map<string, int>, name: string)
    requires name != "" && name in existing
    ensures PlanDelete(existing, Some(name)).RemovePlan?
    ensures PlanDelete(PlanDelete(existing, Some(name)).rest, Some(name)) == Unmapped
  {
  }
}

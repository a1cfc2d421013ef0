/** The supplement catalogue route (src/app/api/supplements/route.ts). A
    supplement may only be removed while no schedule and no mapping entry
    refers to it. */
module Supplements {
  import opened Base
  import opened Records
  import opened Store

  /** What `request.json()` produced for a POST. A missing `id` or `name`
      is the empty string here: both are falsy, which is all the route asks. */
  datatype SupplementBody =
    | Unparsable          // SyntaxError
    | NullBody            // `null`: reading `.id` throws a TypeError
    | Parsed(supplement: Supplement)

  datatype Conflict = DuplicateId | DuplicateName | UsedBySchedule | MappedByName | MappedById

  datatype Response =
    | Listed(supplements: seq<Supplement>)   // 200, GET
    | Created(supplement: Supplement)        // 201
    | Removed(id: string)                    // 200
    | BadRequest                             // 400
    | NotFound(id: string)                   // 404
    | Rejected(conflict: Conflict)           // 409
    | ServerError                            // 500

  function Status(r: Response): int {
    match r
    case Listed(_) => 200
    case Created(_) => 201
    case Removed(_) => 200
    case BadRequest => 400
    case NotFound(_) => 404
    case Rejected(_) => 409
    case ServerError => 500
  }

  /** No two records share an id, and no two share a name. */
  predicate UniqueKeys(list: seq<Supplement>) {
    Pairwise(DifferentKeys, list)
  }

  predicate DifferentKeys(a: Supplement, b: Supplement) {
    a.id != b.id && a.name != b.name
  }

  predicate HasId(list: seq<Supplement>, id: string) {
    exists x :: x in list && x.id == id
  }

  predicate HasName(list: seq<Supplement>, name: string) {
    exists x :: x in list && x.name == name
  }

  /** The verdict on adding `s` to `list`: missing fields first, then a
      duplicate id, then a duplicate name; otherwise it is created. */
  function AddVerdict(list: seq<Supplement>, s: Supplement): (r: Response)
    ensures r == BadRequest <==> s.id == "" || s.name == ""
    ensures r == Rejected(DuplicateId) <==> s.id != "" && s.name != "" && HasId(list, s.id)
    ensures r == Rejected(DuplicateName) <==>
      s.id != "" && s.name != "" && !HasId(list, s.id) && HasName(list, s.name)
    ensures r == Created(s) <==> s.id != "" && s.name != "" && !HasId(list, s.id) && !HasName(list, s.name)
    ensures r.BadRequest? || r.Rejected? || r == Created(s)
  {
    if s.id == "" || s.name == "" then BadRequest
    else if HasId(list, s.id) then Rejected(DuplicateId)
    else if HasName(list, s.name) then Rejected(DuplicateName)
    else Created(s)
  }

  /** An accepted addition keeps ids and names unique. */
  lemma AddKeepsUniqueKeys(list: seq<Supplement>, s: Supplement)
    requires UniqueKeys(list)
    requires AddVerdict(list, s).Created?
    ensures UniqueKeys(list + [s])
  {
    var l := list + [s];
    forall i, j | 0 <= i < j < |l| ensures l[i].id != l[j].id && l[i].name != l[j].name {
      if j == |list| {
        assert l[i] in list;
      }
    }
  }

  /** `find(s => s.id === id)?.name`: the name of the first record with that
      id; the empty string (falsy) when there is none. */
  function NameOf(list: seq<Supplement>, id: string): (name: string)
    ensures name != "" ==> exists x :: x in list && x.id == id && x.name == name
    ensures UniqueKeys(list) ==> forall i :: 0 <= i < |list| && list[i].id == id ==> name == list[i].name
  {
    if list == [] then ""
    else if list[0].id == id then list[0].name
    else
      var name := NameOf(list[1..], id);
      assert forall i :: 0 < i < |list| ==> list[i] == list[1..][i - 1];
      assert forall x :: x in list[1..] ==> x in list;
      name
  }

  /** A schedule refers to the supplement by its id, or by its name when the name is non-empty. */
  predicate RefersTo(s: Schedule, id: string, name: string) {
    s.supplement == id || (name != "" && s.supplement == name)
  }

  /** The verdict on deleting `id` (None: no `id` parameter). */
  function DeleteVerdict(
    schedules: seq<Schedule>, list: seq<Supplement>, mapping: map<string, int>, id: Option<string>)
    : (r: Response)
    ensures r == BadRequest <==> id.None? || id.value == ""
    ensures id.Some? && id.value != "" ==>
      var name := NameOf(list, id.value);
      && (r == Rejected(UsedBySchedule) <==> exists s :: s in schedules && RefersTo(s, id.value, name))
      && (r == Rejected(MappedByName) <==>
           (forall s :: s in schedules ==> !RefersTo(s, id.value, name)) && name != "" && name in mapping)
      && (r == Rejected(MappedById) <==>
           (forall s :: s in schedules ==> !RefersTo(s, id.value, name))
           && (name == "" || name !in mapping) && id.value in mapping)
      && (r.NotFound? || r.Removed? ==>
           (forall s :: s in schedules ==> !RefersTo(s, id.value, name))
           && (name == "" || name !in mapping) && id.value !in mapping)
      && (r.NotFound? ==> r == NotFound(id.value) && !HasId(list, id.value))
      && (r.Removed? ==> r == Removed(id.value) && HasId(list, id.value))
    ensures r.BadRequest? || r.Rejected? || r.NotFound? || r.Removed?
  {
    if id.None? || id.value == "" then BadRequest
    else
      var name := NameOf(list, id.value);
      if exists s :: s in schedules && RefersTo(s, id.value, name) then Rejected(UsedBySchedule)
      else if name != "" && name in mapping then Rejected(MappedByName)
      else if id.value in mapping then Rejected(MappedById)
      else if |Remaining(list, id.value)| == |list| then NotFound(id.value)
      else Removed(id.value)
  }

  /** `filter(s => s.id !== id)`. */
  function Remaining(list: seq<Supplement>, id: string): (r: seq<Supplement>)
    ensures |r| == |list| <==> !HasId(list, id)
    ensures forall x :: x in r <==> x in list && x.id != id
  {
    var keep := (x: Supplement) => x.id != id;
    FilterKeepsAll(keep, list);
    Filter(keep, list)
  }

  /** Filtering keeps ids and names unique. */
  lemma RemainingKeepsUniqueKeys(list: seq<Supplement>, id: string)
    requires UniqueKeys(list)
    ensures UniqueKeys(Remaining(list, id))
  {
    FilterPairwise((x: Supplement) => x.id != id, DifferentKeys, list);
  }

  /** After a successful deletion nothing refers to the removed supplement:
      no schedule names it by id or name, the mapping has neither as a key,
      and the catalogue no longer holds the id. */
  lemma DeleteLeavesNoDanglingReference(
    schedules: seq<Schedule>, list: seq<Supplement>, mapping: map<string, int>, id: string)
    requires UniqueKeys(list)
    requires DeleteVerdict(schedules, list, mapping, Some(id)) == Removed(id)
    ensures forall x :: x in list && x.id == id ==>
      && (forall s :: s in schedules ==> s.supplement != x.id && (x.name == "" || s.supplement != x.name))
      && x.id !in mapping && (x.name == "" || x.name !in mapping)
    ensures !HasId(Remaining(list, id), id) && UniqueKeys(Remaining(list, id))
  {
    RemainingKeepsUniqueKeys(list, id);
    forall x | x in list && x.id == id ensures x.name == NameOf(list, id) {
      var i :| 0 <= i < |list| && list[i] == x;
    }
  }

  /** The handlers over the catalogue file; the schedule and mapping files are
      only read. A write that fails answers 500 and leaves the file as it was. */
  method Get(d: DataDir) returns (r: Response)
    ensures r == Listed(ReadOr(d.supplements, [])) && Status(r) == 200
  {
    r := Listed(ReadOr(d.supplements, []));
  }

  method Post(d: DataDir, body: SupplementBody, writeOk: bool) returns (r: Response)
    modifies d`supplements
    ensures body.Unparsable? ==> r == BadRequest && d.supplements == old(d.supplements)
    ensures body.NullBody? ==> r == ServerError && d.supplements == old(d.supplements)
    ensures body.Parsed? ==>
      var list := ReadOr(old(d.supplements), []);
      var verdict := AddVerdict(list, body.supplement);
      if !verdict.Created? then r == verdict && d.supplements == old(d.supplements)
      else if writeOk then r == verdict && d.supplements == Holds(list + [body.supplement])
      else r == ServerError && d.supplements == old(d.supplements)
  {
    if body.Unparsable? {
      return BadRequest;
    }
    if body.NullBody? {
      return ServerError;
    }
    var list := ReadOr(d.supplements, []);
    r := AddVerdict(list, body.supplement);
    if r.Created? {
      if writeOk {
        d.supplements := Holds(list + [body.supplement]);
      } else {
        r := ServerError;
      }
    }
  }

  method Delete(d: DataDir, id: Option<string>, writeOk: bool) returns (r: Response)
    modifies d`supplements
    ensures
      var list := ReadOr(old(d.supplements), []);
      var verdict := DeleteVerdict(ReadOr(d.schedules, []), list, ReadOr(d.mapping, map[]), id);
      if !verdict.Removed? then r == verdict && d.supplements == old(d.supplements)
      else if writeOk then r == verdict && d.supplements == Holds(Remaining(list, id.value))
      else r == ServerError && d.supplements == old(d.supplements)
  {
    var list := ReadOr(d.supplements, []);
    r := DeleteVerdict(ReadOr(d.schedules, []), list, ReadOr(d.mapping, map[]), id);
    if r.Removed? {
      if writeOk {
        d.supplements := Holds(Remaining(list, id.value));
      } else {
        r := ServerError;
      }
    }
  }
}

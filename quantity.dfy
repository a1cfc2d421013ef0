/** The remaining-count report from the dispenser
    (src/app/api/esp32/quantity/route.ts): the device names a supplement and
    the number of pills left, and the route records it on the catalogue
    entry with that name. */
module Quantity {
  import opened Base
  import opened Text
  import opened Records
  import opened Store

  datatype Response =
    | Updated(name: string, quantity: int)   // 200
    | MissingParameter                       // 400
    | InvalidQuantity                        // 400
    | NotFound(name: string)                 // 404
    | FileMissing                            // 500, supplements.json absent
    | ReadError                              // 500, unparsable file
    | WriteError                             // 500

  function Status(r: Response): int {
    match r
    case Updated(_, _) => 200
    case MissingParameter => 400
    case InvalidQuantity => 400
    case NotFound(_) => 404
    case FileMissing => 500
    case ReadError => 500
    case WriteError => 500
  }

  /** `findIndex(s => s.name === name)`: the first index holding that name, or -1. */
  method FindIndexByName(list: seq<Supplement>, name: string) returns (index: int)
    ensures -1 <= index < |list|
    ensures index == -1 <==> forall k :: 0 <= k < |list| ==> list[k].name != name
    ensures index >= 0 ==> list[index].name == name && forall k :: 0 <= k < index ==> list[k].name != name
  {
    index := 0;
    while index < |list|
      invariant 0 <= index <= |list|
      invariant forall k :: 0 <= k < index ==> list[k].name != name
    {
      if list[index].name == name {
        return;
      }
      index := index + 1;
    }
    index := -1;
  }

  /** The catalogue with entry `i`'s quantity set to `quantity`. */
  function WithQuantity(list: seq<Supplement>, i: int, quantity: int): (r: seq<Supplement>)
    requires 0 <= i < |list|
    ensures |r| == |list| && r[i].quantity == Some(quantity)
    ensures r[i].id == list[i].id && r[i].name == list[i].name
    ensures forall k :: 0 <= k < |list| && k != i ==> r[k] == list[k]
  {
    list[i := list[i].(quantity := Some(quantity))]
  }

  /** The query parameters are both required and non-empty; the quantity is
      whatever `parseInt` reads from the front of its parameter. */
  function ParseReport(name: Option<string>, remaining: Option<string>): (r: Result)
    ensures r.Fail? <==> Missing(name, remaining) || ParseInt(remaining.value).None?
    ensures r.Fail? ==> r.error == (if Missing(name, remaining) then MissingParameter else InvalidQuantity)
    ensures r.Ok? ==> r.name == name.value && r.quantity == ParseInt(remaining.value).value
  {
    if Missing(name, remaining) then Fail(MissingParameter)
    else match ParseInt(remaining.value)
      case None => Fail(InvalidQuantity)
      case Some(q) => Ok(name.value, q)
  }

  /** `!supplementName || !remainingQuantity`: absent or empty. */
  predicate Missing(name: Option<string>, remaining: Option<string>) {
    name.None? || name.value == "" || remaining.None? || remaining.value == ""
  }

  datatype Result = Ok(name: string, quantity: int) | Fail(error: Response)

  /** GET. Unlike the other readers, this route treats a missing or unreadable
      catalogue as a server error; a blank one is an empty list. */
  method Report(d: DataDir, name: Option<string>, remaining: Option<string>, writeOk: bool) returns (r: Response)
    modifies d`supplements
    ensures ParseReport(name, remaining).Fail? ==>
      r == ParseReport(name, remaining).error && d.supplements == old(d.supplements)
    ensures ParseReport(name, remaining).Ok? && old(d.supplements).Missing? ==>
      r == FileMissing && d.supplements == old(d.supplements)
    ensures ParseReport(name, remaining).Ok? && old(d.supplements).Malformed? ==>
      r == ReadError && d.supplements == old(d.supplements)
    ensures ParseReport(name, remaining).Ok? && (old(d.supplements).Blank? || old(d.supplements).Holds?) ==>
      var list := ReadOr(old(d.supplements), []);
      var report := ParseReport(name, remaining);
      if forall k :: 0 <= k < |list| ==> list[k].name != report.name then
        r == NotFound(report.name) && d.supplements == old(d.supplements)
      else
        exists i :: 0 <= i < |list| && list[i].name == report.name
          && (forall k :: 0 <= k < i ==> list[k].name != report.name)
          && if writeOk then r == Updated(report.name, report.quantity)
                             && d.supplements == Holds(WithQuantity(list, i, report.quantity))
             else r == WriteError && d.supplements == old(d.supplements)
  {
    var report := ParseReport(name, remaining);
    if report.Fail? {
      return report.error;
    }
    if d.supplements.Missing? {
      return FileMissing;
    }
    if d.supplements.Malformed? {
      return ReadError;
    }
    var list := ReadOr(d.supplements, []);
    var i := FindIndexByName(list, report.name);
    if i == -1 {
      return NotFound(report.name);
    }
    if writeOk {
      d.supplements := Holds(WithQuantity(list, i, report.quantity));
      r := Updated(report.name, report.quantity);
    } else {
      r := WriteError;
    }
  }
}

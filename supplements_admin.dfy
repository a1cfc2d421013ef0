/** The catalogue administration page (src/app/supplements-admin/page.tsx):
    a form that adds a supplement by id and name, and a delete button per
    entry. The server's answer to each request is a parameter. */
module SupplementsAdmin {
  import opened Base
  import opened Text
  import opened Records
  import Supplements

  /** The record the form sends: the trimmed id and name, no quantity. */
  function Request(id: string, name: string): (s: Supplement)
    ensures s.id == Trim(id) && s.name == Trim(name) && s.quantity.None?
  {
    Supplement(Trim(id), Trim(name), None)
  }

  /** The form's check: both fields must hold something besides white space. */
  predicate Filled(id: string, name: string) {
    Trim(id) != "" && Trim(name) != ""
  }

  /** A request the form lets through never meets the server's
      missing-field 400; the server then decides on duplicates alone. */
  lemma FormRequestHasFields(list: seq<Supplement>, id: string, name: string)
    requires Filled(id, name)
    ensures Supplements.AddVerdict(list, Request(id, name)) != Supplements.BadRequest
    ensures Supplements.AddVerdict(list, Request(id, name)).Created? <==>
      !Supplements.HasId(list, Trim(id)) && !Supplements.HasName(list, Trim(name))
  {
  }

  datatype AddResult = Blank | AddFailed | Added(s: Supplement)

  class AdminPage {
    var supplements: seq<Supplement>
    var newId: string
    var newName: string

    constructor ()
      ensures supplements == [] && newId == "" && newName == ""
    {
      supplements, newId, newName := [], "", "";
    }

    /** `fetchSupplements`: a failed fetch keeps the list. */
    method FetchSupplements(data: Option<seq<Supplement>>)
      modifies this`supplements
      ensures supplements == if data.Some? then data.value else old(supplements)
    {
      if data.Some? {
        supplements := data.value;
      }
    }

    /** `handleAddSupplement` against a server whose catalogue file holds
      `catalogue` and whose write succeeds when `writeOk`: blank fields send
      nothing; otherwise the form POSTs `Request(newId, newName)`, and a 201
      (the server echoes the record it stored) appends that record and clears
      the form, while any other answer changes nothing. */
    method AddSupplement(catalogue: seq<Supplement>, writeOk: bool) returns (r: AddResult)
      modifies this`supplements, this`newId, this`newName
      ensures !Filled(old(newId), old(newName)) ==>
        r == Blank && supplements == old(supplements) && newId == old(newId) && newName == old(newName)
      ensures Filled(old(newId), old(newName)) ==>
        var sent := Request(old(newId), old(newName));
        if Supplements.AddVerdict(catalogue, sent).Created? && writeOk then
          r == Added(sent) && supplements == old(supplements) + [sent] && newId == "" && newName == ""
        else
          r == AddFailed && supplements == old(supplements) && newId == old(newId) && newName == old(newName)
    {
      if !Filled(newId, newName) {
        return Blank;
      }
      var answer := Supplements.AddVerdict(catalogue, Request(newId, newName));
      if !answer.Created? || !writeOk {
        return AddFailed;
      }
      supplements := supplements + [answer.supplement];
      newId, newName := "", "";
      r := Added(answer.supplement);
    }

    /** `handleDeleteSupplement` with the user's confirmation and the outcome
      of the DELETE: a success drops every entry with that id. */
    method DeleteSupplement(id: string, confirmed: bool, apiOk: bool) returns (deleted: bool)
      modifies this`supplements
      ensures deleted == (confirmed && apiOk)
      ensures deleted ==> supplements == Filter((s: Supplement) => s.id != id, old(supplements))
      ensures !deleted ==> supplements == old(supplements)
    {
      deleted := confirmed && apiOk;
      if deleted {
        supplements := Filter((s: Supplement) => s.id != id, supplements);
      }
    }
  }

  /** A successful delete leaves the page with the same list the server
      keeps when it starts from the page's list. */
  lemma DeleteTracksServer(list: seq<Supplement>, id: string)
    ensures Filter((s: Supplement) => s.id != id, list) == Supplements.Remaining(list, id)
  {
  }
}

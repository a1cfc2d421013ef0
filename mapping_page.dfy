/** The mapping administration page (src/app/mapping/page.tsx): it keys the
    motor table by supplement ID, and keeps adding a new entry apart from
    editing an existing one. The outcome of each server request is a
    parameter. */
module MappingPage {
  import opened Base
  import opened Text
  import opened Records
  import DispenserMapping

  /** A motor field's value: `!text || isNaN(parseInt(text))` rejects it. */
  function ParseMotor(text: string): (m: Option<int>)
    ensures m.Some? <==> text != "" && ParseInt(text).Some?
    ensures m.Some? ==> m.value == ParseInt(text).value
  {
    if text == "" then None else ParseInt(text)
  }

  /** The edit field is filled with `String(motor)`, which reads back as that motor. */
  lemma EditFieldRoundTrip(motor: int)
    ensures ParseMotor(ShowInt(motor)) == Some(motor)
  {
    ParseIntShowInt(motor);
    assert ShowInt(motor) != "" by {
      assert ParseInt("") == None;
    }
  }

  /** The page's copy of the table after a save or a delete is the table the
      server writes for the same request. */
  lemma PageAgreesWithServer(m: map<string, int>, key: string, motor: int)
    ensures m[key := motor] == DispenserMapping.Merge(m, map[key := motor])
    ensures key != "" && key in m ==>
      DispenserMapping.PlanDelete(m, Some(key)) == DispenserMapping.RemovePlan(m - {key})
  {
  }

  datatype SaveResult =
    | InvalidInput           // a toast; nothing is sent
    | AlreadyMapped          // adding a supplement that has an entry
    | SaveFailed             // the POST failed
    | Updated(key: string, motor: int)
    | Added(key: string, motor: int)

  datatype DeleteResult = Cancelled | DeleteFailed | Deleted

  class Page {
    var mappings: map<string, int>
    var availableSupplements: seq<Supplement>
    var selectedSupplement: string   // an id
    var motorNumber: string          // the add form's motor field
    var isEditing: Option<string>    // the key being edited
    var editMotorNumber: string      // the edit form's motor field

    /** Editing is on when `isEditing` is truthy: a key, and not the empty one. */
    predicate Editing()
      reads this
    {
      isEditing.Some? && isEditing.value != ""
    }

    constructor ()
      ensures mappings == map[] && availableSupplements == [] && !Editing()
      ensures selectedSupplement == "" && motorNumber == "" && editMotorNumber == ""
    {
      mappings := map[];
      availableSupplements := [];
      selectedSupplement := "";
      motorNumber := "";
      isEditing := None;
      editMotorNumber := "";
    }

    /** `fetchMappings`: a failed fetch keeps the table. */
    method FetchMappings(data: Option<map<string, int>>)
      modifies this`mappings
      ensures mappings == if data.Some? then data.value else old(mappings)
    {
      if data.Some? {
        mappings := data.value;
      }
    }

    /** `fetchSupplements`: the list, and the first supplement preselected. */
    method FetchSupplements(data: Option<seq<Supplement>>)
      modifies this`availableSupplements, this`selectedSupplement
      ensures data.Some? ==> availableSupplements == data.value
      ensures data.Some? && |data.value| > 0 ==> selectedSupplement == data.value[0].id
      ensures data.None? || |data.value| == 0 ==>
        selectedSupplement == old(selectedSupplement)
      ensures data.None? ==> availableSupplements == old(availableSupplements)
    {
      if data.Some? {
        availableSupplements := data.value;
        if |data.value| > 0 {
          selectedSupplement := data.value[0].id;
        }
      }
    }

    /** `handleEditClick`: edit this key, starting from its motor. */
    method EditClick(key: string, motor: int)
      modifies this`isEditing, this`editMotorNumber
      ensures isEditing == Some(key) && ParseMotor(editMotorNumber) == Some(motor)
    {
      isEditing := Some(key);
      editMotorNumber := ShowInt(motor);
      EditFieldRoundTrip(motor);
    }

    /** `handleSaveMapping` with the outcome of its POST. While editing, the
      edited key takes the new motor and editing ends. Otherwise a new
      entry is added for the selected supplement, which must not have one
      yet, and the selection returns to the first supplement. A refused or
      failed save changes nothing. */
    method Save(apiOk: bool) returns (r: SaveResult)
      modifies this`mappings, this`isEditing, this`editMotorNumber, this`selectedSupplement, this`motorNumber
      ensures old(Editing()) ==>
        var key, m := old(isEditing).value, ParseMotor(old(editMotorNumber));
        if m.None? then r == InvalidInput && Unchanged()
        else if !apiOk then r == SaveFailed && Unchanged()
        else r == Updated(key, m.value) && mappings == old(mappings)[key := m.value]
             && isEditing.None? && editMotorNumber == ""
             && selectedSupplement == old(selectedSupplement) && motorNumber == old(motorNumber)
      ensures !old(Editing()) ==>
        var key, m := old(selectedSupplement), ParseMotor(old(motorNumber));
        if key == "" || m.None? then r == InvalidInput && Unchanged()
        else if key in old(mappings) then r == AlreadyMapped && Unchanged()
        else if !apiOk then r == SaveFailed && Unchanged()
        else r == Added(key, m.value) && mappings == old(mappings)[key := m.value]
             && selectedSupplement == (if |availableSupplements| > 0 then availableSupplements[0].id else "")
             && motorNumber == "" && isEditing == old(isEditing) && editMotorNumber == old(editMotorNumber)
    {
      if Editing() {
        r := SaveEdit(ParseMotor(editMotorNumber), apiOk);
      } else {
        r := SaveNew(ParseMotor(motorNumber), apiOk);
      }
    }

    /** The editing branch of `handleSaveMapping`, given the parsed edit field. */
    method SaveEdit(m: Option<int>, apiOk: bool) returns (r: SaveResult)
      requires Editing()
      modifies this`mappings, this`isEditing, this`editMotorNumber
      ensures var key := old(isEditing).value;
        if m.None? then r == InvalidInput && Unchanged()
        else if !apiOk then r == SaveFailed && Unchanged()
        else r == Updated(key, m.value) && mappings == old(mappings)[key := m.value]
             && isEditing.None? && editMotorNumber == ""
    {
      if m.None? {
        return InvalidInput;
      }
      if !apiOk {
        return SaveFailed;
      }
      var key := isEditing.value;
      mappings := mappings[key := m.value];
      isEditing := None;
      editMotorNumber := "";
      r := Updated(key, m.value);
    }

    /** The adding branch of `handleSaveMapping`, given the parsed motor field. */
    method SaveNew(m: Option<int>, apiOk: bool) returns (r: SaveResult)
      modifies this`mappings, this`selectedSupplement, this`motorNumber
      ensures var key := old(selectedSupplement);
        if key == "" || m.None? then r == InvalidInput && Unchanged()
        else if key in old(mappings) then r == AlreadyMapped && Unchanged()
        else if !apiOk then r == SaveFailed && Unchanged()
        else r == Added(key, m.value) && mappings == old(mappings)[key := m.value]
             && selectedSupplement == (if |availableSupplements| > 0 then availableSupplements[0].id else "")
             && motorNumber == ""
    {
      var key := selectedSupplement;
      if key == "" || m.None? {
        return InvalidInput;
      }
      if key in mappings {
        return AlreadyMapped;
      }
      if !apiOk {
        return SaveFailed;
      }
      mappings := mappings[key := m.value];
      selectedSupplement := if |availableSupplements| > 0 then availableSupplements[0].id else "";
      motorNumber := "";
      r := Added(key, m.value);
    }

    /** The save-related state is as it was before the call. */
    twostate predicate Unchanged()
      reads this
    {
      mappings == old(mappings) && isEditing == old(isEditing) && editMotorNumber == old(editMotorNumber)
      && selectedSupplement == old(selectedSupplement) && motorNumber == old(motorNumber)
    }

    /** `handleDeleteMapping` with the user's answer to the confirmation and
      the outcome of the DELETE: only that key goes, and editing ends if it
      was the key being edited. */
    method DeleteMapping(name: string, confirmed: bool, apiOk: bool) returns (r: DeleteResult)
      modifies this`mappings, this`isEditing, this`editMotorNumber
      ensures r == if !confirmed then Cancelled else if !apiOk then DeleteFailed else Deleted
      ensures r == Deleted ==> mappings == old(mappings) - {name}
      ensures r == Deleted && old(isEditing) == Some(name) ==> isEditing.None? && editMotorNumber == ""
      ensures r != Deleted || old(isEditing) != Some(name) ==>
        isEditing == old(isEditing) && editMotorNumber == old(editMotorNumber)
      ensures r != Deleted ==> mappings == old(mappings)
    {
      if !confirmed {
        return Cancelled;
      }
      if !apiOk {
        return DeleteFailed;
      }
      mappings := mappings - {name};
      if isEditing == Some(name) {
        isEditing := None;
        editMotorNumber := "";
      }
      r := Deleted;
    }
  }
}

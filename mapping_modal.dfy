/** The mapping dialog of the schedule page (src/components/MappingModal.tsx):
    it keys the motor table by supplement NAME, offers motors 1 to 8, and
    refuses to give one motor to two supplements. The outcome of each server
    request is a parameter. */
module MappingModal {
  import opened Base
  import opened Text

  /** The motors the dialog offers. */
  const MotorNumbers: seq<int> := [1, 2, 3, 4, 5, 6, 7, 8]

  lemma MotorNumbersAreOneToEight()
    ensures |MotorNumbers| == 8
    ensures forall m :: m in MotorNumbers <==> 1 <= m <= 8
    ensures forall k :: 0 <= k < 8 ==> MotorNumbers[k] == k + 1
  {
  }

  /** `isUsedByOther`: some other supplement already holds this motor. */
  predicate IsUsedByOther(mapping: map<string, int>, motor: int, selected: string) {
    exists sup :: sup in mapping && mapping[sup] == motor && sup != selected
  }

  /** No motor serves two supplements. */
  predicate OneSupplementPerMotor(mapping: map<string, int>) {
    forall a, b :: a in mapping && b in mapping && a != b ==> mapping[a] != mapping[b]
  }

  /** One entry of the motor select. */
  datatype MotorOption = MotorOption(number: int, value: string, disabled: bool)

  /** The motor select: one option per motor, disabled when another supplement holds it. */
  function Options(mapping: map<string, int>, selected: string): (r: seq<MotorOption>)
    ensures |r| == |MotorNumbers|
    ensures forall k :: 0 <= k < |r| ==> r[k].number == MotorNumbers[k] && r[k].value == ShowInt(MotorNumbers[k])
    ensures forall k :: 0 <= k < |r| ==> (r[k].disabled <==> IsUsedByOther(mapping, MotorNumbers[k], selected))
  {
    seq(|MotorNumbers|, k requires 0 <= k < |MotorNumbers| =>
      MotorOption(MotorNumbers[k], ShowInt(MotorNumbers[k]), IsUsedByOther(mapping, MotorNumbers[k], selected)))
  }

  /** What `handleSubmit` decides before it sends anything. */
  datatype Verdict =
    | MissingInput    // no supplement or no motor chosen
    | MotorTaken      // the motor belongs to another supplement
    | Send(motor: int) // POST `{[supplement]: motor}`

  function SubmitVerdict(mapping: map<string, int>, selected: string, motorText: string): (v: Verdict)
    ensures v.MissingInput? <==> selected == "" || motorText == "" || ParseInt(motorText).None?
    ensures v.MotorTaken? <==> selected != "" && motorText != "" && ParseInt(motorText).Some?
                               && IsUsedByOther(mapping, ParseInt(motorText).value, selected)
    ensures v.Send? ==> v.motor == ParseInt(motorText).value && !IsUsedByOther(mapping, v.motor, selected)
  {
    if selected == "" || motorText == "" || ParseInt(motorText).None? then MissingInput
    else
      var motor := ParseInt(motorText).value;
      if IsUsedByOther(mapping, motor, selected) then MotorTaken else Send(motor)
  }

  /** The motor the dialog shows for a supplement: the mapped one when it is
      truthy, otherwise none. */
  function MirroredMotor(mapping: map<string, int>, selected: string): (t: string)
    ensures t != "" <==> selected != "" && selected in mapping && mapping[selected] != 0
    ensures t != "" ==> ParseInt(t) == Some(mapping[selected])
  {
    if selected != "" && selected in mapping && mapping[selected] != 0 then
      ParseIntShowInt(mapping[selected]);
      ShowInt(mapping[selected])
    else ""
  }

  /** An option the select leaves enabled is one the submit check accepts,
      and a disabled one is one it refuses. */
  lemma OptionsAgreeWithSubmit(mapping: map<string, int>, selected: string, k: int)
    requires selected != "" && 0 <= k < |MotorNumbers|
    ensures var o := Options(mapping, selected)[k];
      (o.disabled <==> SubmitVerdict(mapping, selected, o.value) == MotorTaken)
      && (!o.disabled ==> SubmitVerdict(mapping, selected, o.value) == Send(o.number))
  {
    ParseIntShowInt(MotorNumbers[k]);
  }

  /** Re-saving a supplement to the motor it already holds is allowed. */
  lemma ResaveOwnMotor(mapping: map<string, int>, selected: string)
    requires OneSupplementPerMotor(mapping)
    requires selected != "" && selected in mapping && mapping[selected] != 0
    ensures SubmitVerdict(mapping, selected, MirroredMotor(mapping, selected)) == Send(mapping[selected])
  {
  }

  /** A save that passes the conflict check keeps one supplement per motor. */
  lemma SaveKeepsOneSupplementPerMotor(mapping: map<string, int>, selected: string, motor: int)
    requires OneSupplementPerMotor(mapping) && !IsUsedByOther(mapping, motor, selected)
    ensures OneSupplementPerMotor(mapping[selected := motor])
  {
    var m := mapping[selected := motor];
    forall a, b | a in m && b in m && a != b ensures m[a] != m[b] {
      if a == selected {
        assert b in mapping && mapping[b] == m[b];
      } else if b == selected {
        assert a in mapping && mapping[a] == m[a];
      }
    }
  }

  datatype SubmitResult = NotSent(verdict: Verdict) | SaveFailed | Saved(motor: int)

  datatype DeleteResult = NothingSelected | NotMapped | DeleteFailed | Deleted

  /** The dialog's state. `selectedMotor` is the select's string value. */
  class Dialog {
    var mapping: map<string, int>
    var selectedSupplement: string
    var selectedMotor: string

    /** Opening the dialog clears the selection and loads the table; a failed
      load leaves it empty. */
    constructor (fetched: Option<map<string, int>>)
      ensures mapping == fetched.GetOr(map[])
      ensures selectedSupplement == "" && selectedMotor == ""
    {
      mapping := fetched.GetOr(map[]);
      selectedSupplement := "";
      selectedMotor := "";
    }

    /** The effect that runs when the selection or the table changes. */
    method SyncSelectedMotor()
      modifies this`selectedMotor
      ensures selectedMotor == MirroredMotor(mapping, selectedSupplement)
    {
      if selectedSupplement != "" && selectedSupplement in mapping && mapping[selectedSupplement] != 0 {
        selectedMotor := ShowInt(mapping[selectedSupplement]);
      } else {
        selectedMotor := "";
      }
    }

    /** Choosing a supplement; the motor select follows. */
    method SelectSupplement(name: string)
      modifies this`selectedSupplement, this`selectedMotor
      ensures selectedSupplement == name && selectedMotor == MirroredMotor(mapping, name)
    {
      selectedSupplement := name;
      SyncSelectedMotor();
    }

    /** Choosing an option of the motor select. */
    method SelectMotor(k: int)
      requires 0 <= k < |MotorNumbers|
      modifies this`selectedMotor
      ensures selectedMotor == Options(mapping, selectedSupplement)[k].value
    {
      selectedMotor := ShowInt(MotorNumbers[k]);
    }

    /** `handleSubmit` with the outcome of its POST: only a sent and accepted
      request changes the table, and then only the selected entry. */
    method Submit(apiOk: bool) returns (r: SubmitResult)
      modifies this`mapping
      ensures var v := SubmitVerdict(old(mapping), selectedSupplement, selectedMotor);
        if !v.Send? then r == NotSent(v) && mapping == old(mapping)
        else if !apiOk then r == SaveFailed && mapping == old(mapping)
        else r == Saved(v.motor) && mapping == old(mapping)[selectedSupplement := v.motor]
      ensures OneSupplementPerMotor(old(mapping)) ==> OneSupplementPerMotor(mapping)
    {
      var v := SubmitVerdict(mapping, selectedSupplement, selectedMotor);
      if !v.Send? {
        return NotSent(v);
      }
      if !apiOk {
        return SaveFailed;
      }
      if OneSupplementPerMotor(mapping) {
        SaveKeepsOneSupplementPerMotor(mapping, selectedSupplement, v.motor);
      }
      mapping := mapping[selectedSupplement := v.motor];
      r := Saved(v.motor);
    }

    /** `handleDelete` with the outcome of its DELETE: a selected, mapped
      supplement loses its entry and the selection is cleared. */
    method Delete(apiOk: bool) returns (r: DeleteResult)
      modifies this`mapping, this`selectedSupplement, this`selectedMotor
      ensures old(selectedSupplement) == "" ==> r == NothingSelected
      ensures old(selectedSupplement) != "" && old(selectedSupplement) !in old(mapping) ==> r == NotMapped
      ensures old(selectedSupplement) != "" && old(selectedSupplement) in old(mapping) ==>
        r == if apiOk then Deleted else DeleteFailed
      ensures r == Deleted ==>
        mapping == old(mapping) - {old(selectedSupplement)} && selectedSupplement == "" && selectedMotor == ""
      ensures r != Deleted ==>
        mapping == old(mapping) && selectedSupplement == old(selectedSupplement) && selectedMotor == old(selectedMotor)
    {
      if selectedSupplement == "" {
        return NothingSelected;
      }
      if selectedSupplement !in mapping {
        return NotMapped;
      }
      if !apiOk {
        return DeleteFailed;
      }
      mapping := mapping - {selectedSupplement};
      selectedSupplement := "";
      selectedMotor := "";
      r := Deleted;
    }

    /** `handleResetMapping` with the outcome of its DELETE. */
    method Reset(apiOk: bool) returns (ok: bool)
      modifies this`mapping, this`selectedSupplement, this`selectedMotor
      ensures ok == apiOk
      ensures ok ==> mapping == map[] && selectedSupplement == "" && selectedMotor == ""
      ensures !ok ==> mapping == old(mapping) && selectedSupplement == old(selectedSupplement)
                      && selectedMotor == old(selectedMotor)
    {
      ok := apiOk;
      if ok {
        mapping := map[];
        selectedSupplement := "";
        selectedMotor := "";
      }
    }
  }
}

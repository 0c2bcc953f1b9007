/** The generic form: its state starts as the initial data, each input
    writes one key, a multi-select toggles one value, and submission checks
    the required fields in order. */
module DataForm {
  import opened Seqs
  import opened Assoc
  import opened Js
  import opened Forms

  /** What `handleSubmit` does: call `onSubmit` with the form data, or raise
      the alert for the first missing field and stop. */
  datatype SubmitOutcome = Submitted(data: Obj) | Rejected(index: nat, message: string)

  class Form {
    const fields: seq<FieldSpec>
    var formData: Obj

    /** `useState(initialData)`. */
    constructor(fields: seq<FieldSpec>, initialData: Obj)
      ensures this.fields == fields && formData == initialData
    {
      this.fields := fields;
      formData := initialData;
    }

    /** `setFormData(prev => ({ ...prev, [key]: value }))`. */
    method HandleInputChange(key: string, value: Value)
      modifies this
      ensures formData == Put(old(formData), key, value)
      ensures Get(formData, key) == value
      ensures forall k :: k != key ==> Get(formData, k) == Get(old(formData), k)
    {
      forall k ensures Get(Put(formData, key, value), k) == if k == key then value else Get(formData, k) {
        GetPut(formData, key, value, k);
      }
      formData := Put(formData, key, value);
    }

    /** The checkbox handler of a multi-select option: writes the toggled
        selection under `key`, or throws (returns false, state unchanged)
        when the current value cannot be spread or filtered. */
    method HandleToggle(key: string, option: string, checked: bool) returns (ok: bool)
      modifies this
      ensures ok <==> ToggledValue(Get(old(formData), key), option, checked).Some?
      ensures ok ==> formData == Put(old(formData), key, ToggledValue(Get(old(formData), key), option, checked).value)
      ensures !ok ==> formData == old(formData)
    {
      var next := ToggledValue(Get(formData, key), option, checked);
      if next.None? {
        return false;
      }
      HandleInputChange(key, next.value);
      ok := true;
    }

    /** `handleSubmit`: walks `fields` in order and stops at the first
        non-optional field whose value is falsy or an empty array; only when
        there is none does it submit the data. */
    method HandleSubmit() returns (outcome: SubmitOutcome)
      ensures outcome.Submitted? <==> forall i :: 0 <= i < |fields| ==> !Missing(fields[i], formData)
      ensures outcome.Submitted? ==> outcome.data == formData
      ensures outcome.Rejected? ==>
        outcome.index < |fields| && Missing(fields[outcome.index], formData) &&
        (forall j :: 0 <= j < outcome.index ==> !Missing(fields[j], formData)) &&
        outcome.message == RequiredMessage(fields[outcome.index])
    {
      for i := 0 to |fields|
        invariant forall j :: 0 <= j < i ==> !Missing(fields[j], formData)
      {
        var field := fields[i];
        if !field.optional {
          var value := Get(formData, field.key);
          if !Truthy(value) || (value.Arr? && |value.items| == 0) {
            return Rejected(i, RequiredMessage(field));
          }
        }
      }
      outcome := Submitted(formData);
    }
  }

  /** Submission depends only on the fields' values: changing a key that no
      field reads never changes the verdict. */
  lemma MissingIgnoresOtherKeys(f: FieldSpec, data: Obj, key: string, value: Value)
    requires key != f.key
    ensures Missing(f, Put(data, key, value)) == Missing(f, data)
  {
    GetPut(data, key, value, f.key);
  }

  /** Filling a required field with a non-empty selection or a non-empty
      string clears it. */
  lemma FilledAfterInput(f: FieldSpec, data: Obj, value: Value)
    requires Filled(value)
    ensures !Missing(f, Put(data, f.key, value))
  {
    GetPut(data, f.key, value, f.key);
  }

  /** A checked option always leaves a filled selection. */
  lemma CheckFills(current: Value, option: string)
    requires ToggledValue(current, option, true).Some?
    ensures Filled(ToggledValue(current, option, true).value)
  {
  }
}

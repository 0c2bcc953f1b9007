/** The double-click inline editor of a table cell: a small state machine
    over `isEditing` and `tempValue`, and the save request it issues. */
module EditableCell {
  import opened Seqs
  import opened Assoc
  import opened Js
  import opened Forms

  /** `valObj === value || JSON.stringify(valObj) === JSON.stringify(value)`.
      Structural equality is what the JSON comparison decides for strings,
      numbers, booleans, null and arrays of strings; any two `File` objects
      both serialise as `{}`. */
  predicate SameValue(a: Value, b: Value) {
    a == b || (a.File? && b.File?)
  }

  /** The value sent for a date cell: a truthy `YYYY-MM-DD` becomes the
      ISO string of noon that day; anything else is sent as it is. */
  function FinalValue(kind: FieldType, v: Value): (r: Value)
    ensures kind == DateInput && Truthy(v) ==> r == NoonIso(v)
    ensures !(kind == DateInput && Truthy(v)) ==> r == v
  {
    if kind == DateInput && Truthy(v) then NoonIso(v) else v
  }

  /** `valToSaveOverride !== undefined ? valToSaveOverride : tempValue`. */
  function ValueToSave(override: Value, tempValue: Value): Value {
    if override != Undefined then override else tempValue
  }

  /** The request `handleSave` issues, if any: none when the value to save
      is the same as the cell's value, otherwise `{ [field]: finalValue }`,
      an object with exactly the one key. */
  function SaveRequest(kind: FieldType, field: string, value: Value, toSave: Value): (r: Option<Obj>)
    ensures r.None? <==> SameValue(toSave, value)
    ensures r.Some? ==> Keys(r.value) == [field] && Get(r.value, field) == FinalValue(kind, toSave)
  {
    if SameValue(toSave, value) then None else Some([(field, FinalValue(kind, toSave))])
  }

  /** What a key press does (`handleKeyDown`). */
  datatype KeyAction = SaveKey | CancelKey | Ignore

  /** Enter without Shift saves, except in a textarea, a multi-select or a
      searchable select; Escape cancels; any other key does nothing. */
  function KeyActionOf(kind: FieldType, key: string, shift: bool): (a: KeyAction)
    ensures a == SaveKey <==> key == "Enter" && !shift && kind != Textarea && kind != MultiSelect && kind != SearchableSelect
    ensures a == CancelKey <==> key == "Escape"
  {
    if key == "Enter" && !shift then
      if kind != Textarea && kind != MultiSelect && kind != SearchableSelect then SaveKey else Ignore
    else if key == "Escape" then CancelKey
    else Ignore
  }

  /** `String(v)` for the date input's `value`, cut at the first 'T' or
      space: `''` for a falsy value, the date part of a string, the digits
      of a non-negative number. `None` where `String` is not modelled. */
  function DateInputText(v: Value): (r: Option<string>)
    ensures !Truthy(v) ==> r == Some("")
    ensures v.Str? ==> r == Some(DatePart(v.s))
    ensures r.Some? ==> 'T' !in r.value && ' ' !in r.value
  {
    if !Truthy(v) then Some("")
    else match v
      case Str(s) => Some(DatePart(s))
      case Num(n) => if n >= 0 then Some(DatePart(DecimalString(n))) else None
      case Bool(_) => Some("true")
      case _ => None
  }

  class Cell {
    var value: Value
    const id: string
    const field: string
    const kind: FieldType
    var isEditing: bool
    var tempValue: Value

    /** `useState(false)` and `useState(value)`. */
    constructor(value: Value, id: string, field: string, kind: FieldType)
      ensures this.value == value && this.id == id && this.field == field && this.kind == kind
      ensures !isEditing && tempValue == value
    {
      this.value := value;
      this.id := id;
      this.field := field;
      this.kind := kind;
      isEditing := false;
      tempValue := value;
    }

    /** The `useEffect` on `value`: a new value prop resets `tempValue`. */
    method ValueChanged(newValue: Value)
      modifies this
      ensures value == newValue
      ensures old(value) != newValue ==> tempValue == newValue
      ensures old(value) == newValue ==> tempValue == old(tempValue)
      ensures isEditing == old(isEditing)
    {
      if newValue != value {
        value := newValue;
        tempValue := newValue;
      }
    }

    /** `handleDoubleClick`. */
    method HandleDoubleClick()
      modifies this
      ensures isEditing
      ensures value == old(value) && tempValue == old(tempValue)
    {
      isEditing := true;
    }

    /** `handleCancel`: leave editing and drop the edit. */
    method HandleCancel()
      modifies this
      ensures !isEditing && tempValue == value
      ensures value == old(value)
    {
      isEditing := false;
      tempValue := value;
    }

    /** An input's `onChange`: `setTempValue(v)`. */
    method SetTemp(v: Value)
      modifies this
      ensures tempValue == v
      ensures value == old(value) && isEditing == old(isEditing)
    {
      tempValue := v;
    }

    /** `handleSave(override)`. An unchanged value only leaves editing. A
        changed one is sent as `{ [field]: finalValue }`; editing ends when
        `onSave` succeeds (`saveOk`) and stays on when it throws. The
        request, if one was sent, is returned. */
    method HandleSave(override: Value, saveOk: bool) returns (sent: Option<Obj>)
      modifies this
      ensures sent == SaveRequest(kind, field, old(value), ValueToSave(override, old(tempValue)))
      ensures sent.None? ==> !isEditing
      ensures sent.Some? ==> isEditing == (old(isEditing) && !saveOk)
      ensures value == old(value) && tempValue == old(tempValue)
    {
      var valObj := ValueToSave(override, tempValue);
      if SameValue(valObj, value) {
        isEditing := false;
        return None;
      }
      var finalValue := valObj;
      if kind == DateInput && Truthy(valObj) {
        finalValue := NoonIso(valObj);
      }
      sent := Some([(field, finalValue)]);
      if saveOk {
        isEditing := false;
      }
    }

    /** `handleKeyDown`. */
    method HandleKeyDown(key: string, shift: bool, saveOk: bool) returns (sent: Option<Obj>)
      modifies this
      ensures KeyActionOf(kind, key, shift) == SaveKey ==>
        sent == SaveRequest(kind, field, old(value), old(tempValue)) &&
        (sent.None? ==> !isEditing) && (sent.Some? ==> isEditing == (old(isEditing) && !saveOk)) &&
        tempValue == old(tempValue)
      ensures KeyActionOf(kind, key, shift) == CancelKey ==> sent.None? && !isEditing && tempValue == value
      ensures KeyActionOf(kind, key, shift) == Ignore ==>
        sent.None? && isEditing == old(isEditing) && tempValue == old(tempValue)
      ensures value == old(value)
    {
      sent := None;
      if key == "Enter" && !shift {
        if kind != Textarea && kind != MultiSelect && kind != SearchableSelect {
          sent := HandleSave(Undefined, saveOk);
        }
      } else if key == "Escape" {
        HandleCancel();
      }
    }

    /** A select or searchable-select choice: `setTempValue(val)` then
        `handleSave(val)`. The save runs in the same render, so an
        `undefined` choice falls back to the previous `tempValue`. */
    method Choose(val: Value, saveOk: bool) returns (sent: Option<Obj>)
      modifies this
      ensures tempValue == val && value == old(value)
      ensures sent == SaveRequest(kind, field, old(value), ValueToSave(val, old(tempValue)))
      ensures sent.None? ==> !isEditing
      ensures sent.Some? ==> isEditing == (old(isEditing) && !saveOk)
    {
      sent := HandleSave(val, saveOk);
      SetTemp(val);
    }

    /** The select's `onOpenChange(false)`: closing the dropdown ends editing. */
    method CloseDropdown()
      modifies this
      ensures !isEditing && value == old(value) && tempValue == old(tempValue)
    {
      isEditing := false;
    }

    /** A multi-select checkbox: `tempValue` becomes the toggled selection,
        or stays as it is when the toggle throws. */
    method ToggleOption(option: string, checked: bool) returns (ok: bool)
      modifies this
      ensures ok <==> ToggledValue(old(tempValue), option, checked).Some?
      ensures ok ==> tempValue == ToggledValue(old(tempValue), option, checked).value
      ensures !ok ==> tempValue == old(tempValue)
      ensures value == old(value) && isEditing == old(isEditing)
    {
      var next := ToggledValue(tempValue, option, checked);
      if next.None? {
        return false;
      }
      tempValue := next.value;
      ok := true;
    }
  }

  /** Saving right after a cancel never sends anything: the cancelled edit
      leaves `tempValue` equal to `value`. */
  lemma SaveAfterCancel(kind: FieldType, field: string, value: Value)
    ensures SaveRequest(kind, field, value, ValueToSave(Undefined, value)) == None
  {
  }
}

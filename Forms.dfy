/** Form field descriptions and the value logic the table, the form, the
    inline editor and the "new support" dialog share: the initial data a
    field list produces, what counts as a filled value, and the
    multi-select toggle. */
module Forms {
  import opened Seqs
  import opened Assoc
  import opened Js

  /** `field.type`; an absent type renders as a text input. */
  datatype FieldType =
    | Text
    | Textarea
    | SelectInput
    | DateInput
    | MultiSelect
    | SearchableSelect
    | FileInput
    | OtherInput(name: string)

  datatype SelectOption = SelectOption(value: string, labelText: string)

  /** One entry of a `fields` array: `key`, `label` (here `labelText`), `type`, `optional`,
      `defaultValue`, `max`, `options` (`Undefined` where the entry has no
      such property). */
  datatype FieldSpec = FieldSpec(
    key: string,
    labelText: string,
    kind: FieldType,
    optional: bool,
    defaultValue: Value,
    max: Value,
    options: seq<SelectOption>)

  function FieldKeys(fields: seq<FieldSpec>): (ks: seq<string>)
    ensures |ks| == |fields|
    ensures forall i :: 0 <= i < |fields| ==> ks[i] == fields[i].key
  {
    seq(|fields|, i requires 0 <= i < |fields| => fields[i].key)
  }

  /** `field.defaultValue || ''`. */
  function DefaultOrEmpty(f: FieldSpec): Value {
    if Truthy(f.defaultValue) then f.defaultValue else Str("")
  }

  function DefaultEntries(fields: seq<FieldSpec>): (kvs: seq<(string, Value)>)
    ensures |kvs| == |fields|
    ensures forall i :: 0 <= i < |fields| ==> kvs[i] == (fields[i].key, DefaultOrEmpty(fields[i]))
  {
    seq(|fields|, i requires 0 <= i < |fields| => (fields[i].key, DefaultOrEmpty(fields[i])))
  }

  /** `fields.reduce((acc, field) => ({ ...acc, [field.key]: field.defaultValue || '' }), {})`. */
  function InitialFormData(fields: seq<FieldSpec>): Obj {
    PutAll([], DefaultEntries(fields))
  }

  /** The initial data has exactly the field keys, each once, in field order. */
  lemma InitialFormDataKeys(fields: seq<FieldSpec>)
    ensures Keys(InitialFormData(fields)) == Dedup(FieldKeys(fields))
  {
    KeysPutAll(DefaultEntries(fields));
    assert Keys(DefaultEntries(fields)) == FieldKeys(fields);
  }

  /** With distinct keys, each key is bound to its field's default value or
      to `''`; every other key reads `undefined`. */
  lemma InitialFormDataValue(fields: seq<FieldSpec>, i: nat)
    requires i < |fields| && Distinct(FieldKeys(fields))
    ensures Get(InitialFormData(fields), fields[i].key) == DefaultOrEmpty(fields[i])
  {
    var kvs := DefaultEntries(fields);
    LookupPutAll(kvs, fields[i].key);
    LastValueAt(kvs, i);
  }

  lemma InitialFormDataOther(fields: seq<FieldSpec>, k: string)
    requires k !in FieldKeys(fields)
    ensures Get(InitialFormData(fields), k) == Undefined
  {
    InitialFormDataKeys(fields);
  }

  lemma {:induction false} LastValueAt<K, V>(kvs: seq<(K, V)>, i: nat)
    requires i < |kvs|
    requires forall j :: i < j < |kvs| ==> kvs[j].0 != kvs[i].0
    ensures LastValue(kvs, kvs[i].0) == Some(kvs[i].1)
  {
    if i < |kvs| - 1 {
      LastValueAt(kvs[..|kvs| - 1], i);
    }
  }

  /** A required field passes `handleSubmit` when its value is truthy and
      is not an empty array. */
  predicate Filled(v: Value) {
    Truthy(v) && !(v.Arr? && |v.items| == 0)
  }

  /** The field blocks submission: it is not optional and its value in
      `data` is not filled. */
  predicate Missing(f: FieldSpec, data: Obj) {
    !f.optional && !Filled(Get(data, f.key))
  }

  /** The alert `handleSubmit` raises for a missing field. */
  function RequiredMessage(f: FieldSpec): string {
    "El campo " + f.labelText + " es obligatorio."
  }

  /** The multi-select change: checking appends `v` at the end, unchecking
      drops every occurrence of `v`. */
  function Toggle(current: seq<string>, v: string, checked: bool): (r: seq<string>)
    ensures checked ==> r == current + [v]
    ensures !checked ==> v !in r
    ensures !checked ==> forall x :: x != v ==> multiset(r)[x] == multiset(current)[x]
  {
    if checked then current + [v]
    else
      var r := Filter(current, x => x != v);
      assert forall x :: x != v ==> multiset(r)[x] == multiset(current)[x] by {
        forall x | x != v ensures multiset(r)[x] == multiset(current)[x] {
          FilterMultiset(current, x => x != v, x);
        }
      }
      r
  }

  /** Unchecking keeps the remaining values in their order: it distributes
      over concatenation. */
  lemma UncheckPreservesOrder(a: seq<string>, b: seq<string>, v: string)
    ensures Toggle(a + b, v, false) == Toggle(a, v, false) + Toggle(b, v, false)
  {
    FilterConcat(a, b, x => x != v);
  }

  /** Checking a value that was not selected and then unchecking it gives
      the selection back. */
  lemma ToggleRoundTrip(current: seq<string>, v: string)
    requires v !in current
    ensures Toggle(Toggle(current, v, true), v, false) == current
  {
    FilterConcat(current, [v], x => x != v);
    FilterAll(current, x => x != v);
  }

  /** The characters of a string as one-character strings, what
      `[...str]` spreads. */
  function Chars(s: string): (r: seq<string>)
    ensures |r| == |s|
    ensures forall i :: 0 <= i < |s| ==> r[i] == [s[i]]
  {
    seq(|s|, i requires 0 <= i < |s| => [s[i]])
  }

  /** `const current = value || []; checked ? [...current, v] : current.filter(x => x !== v)`.
      `None` is a thrown TypeError: a non-string, non-array truthy value is
      not iterable, and a string has no `filter`. */
  function ToggledValue(current: Value, v: string, checked: bool): (r: Option<Value>)
    ensures !Truthy(current) ==> r == Some(Arr(Toggle([], v, checked)))
    ensures current.Arr? ==> r == Some(Arr(Toggle(current.items, v, checked)))
    ensures r.Some? ==> r.value.Arr? && (!checked ==> v !in r.value.items)
    ensures r.Some? && checked ==> |r.value.items| > 0 && r.value.items[|r.value.items| - 1] == v
  {
    if !Truthy(current) then Some(Arr(Toggle([], v, checked)))
    else match current
      case Arr(items) => Some(Arr(Toggle(items, v, checked)))
      case Str(s) => if checked then Some(Arr(Chars(s) + [v])) else None
      case _ => None
  }
}

/** ComboBox: the option accessors handed to the primitive and the mapping of
    the primitive's selection back to the caller's value shape. Filtering,
    highlighting and selection bookkeeping belong to the primitive. */
module ComboBox {
  import opened Wrappers

  /** `string | { value, label, disabled? }`; `caption` is the `label` field. */
  datatype ComboBoxOption =
    | Plain(text: string)
    | Record(value: string, caption: string, disabled: Option<bool>)

  /** `getOptionValue`. */
  function OptionValue(o: ComboBoxOption): (r: string)
    ensures o.Plain? ==> r == o.text
    ensures o.Record? ==> r == o.value
  {
    match o
    case Plain(s) => s
    case Record(v, _, _) => v
  }

  /** `getOptionLabel`. */
  function OptionLabel(o: ComboBoxOption): (r: string)
    ensures o.Plain? ==> r == o.text
    ensures o.Record? ==> r == o.caption
  {
    match o
    case Plain(s) => s
    case Record(_, l, _) => l
  }

  /** `getOptionDisabled`: a string is never disabled; `disabled ?? false`. */
  function OptionDisabled(o: ComboBoxOption): (r: bool)
    ensures o.Plain? ==> !r
    ensures o.Record? ==> (r <==> o.disabled == Some(true))
  {
    match o
    case Plain(_) => false
    case Record(_, _, d) => d.GetOr(false)
  }

  /** The object form an option stands for, with `disabled` spelled out. */
  function Normalize(o: ComboBoxOption): ComboBoxOption {
    Record(OptionValue(o), OptionLabel(o), Some(OptionDisabled(o)))
  }

  /** The accessors see a string option as the object `{ value: s, label: s }`
      and an object without `disabled` as enabled: the representation does not
      change what they report, and normalising is idempotent. */
  lemma AccessorsIgnoreRepresentation(o: ComboBoxOption)
    ensures OptionValue(Normalize(o)) == OptionValue(o)
    ensures OptionLabel(Normalize(o)) == OptionLabel(o)
    ensures OptionDisabled(Normalize(o)) == OptionDisabled(o)
    ensures Normalize(Normalize(o)) == Normalize(o)
    ensures o.Plain? ==> Normalize(o) == Record(o.text, o.text, Some(false))
    ensures o.Record? && o.disabled.None? ==> Normalize(o) == Record(o.value, o.caption, Some(false))
  {
  }

  /** JavaScript truthiness of an option: only the empty string is falsy. */
  predicate IsTruthy(o: ComboBoxOption) {
    !(o.Plain? && o.text == "")
  }

  /** Single-select `onChange`: `val ? getOptionValue(val) : ''`. The empty
      string option is falsy, but it reports `''` either way. */
  function SingleChange(val: Option<ComboBoxOption>): (r: string)
    ensures val.None? ==> r == ""
    ensures val.Some? ==> r == OptionValue(val.value)
  {
    if val.Some? && IsTruthy(val.value) then OptionValue(val.value) else ""
  }

  /** Multi-select `onChange`: `vals.map(getOptionValue)`. */
  function MultiChange(vals: seq<ComboBoxOption>): (r: seq<string>)
    ensures |r| == |vals|
    ensures forall i :: 0 <= i < |vals| ==> r[i] == OptionValue(vals[i])
    decreases |vals|
  {
    if vals == [] then [] else [OptionValue(vals[0])] + MultiChange(vals[1..])
  }

  /** Multi-select `value`: `(local.value ?? [])`, handed to the primitive as options. */
  function ControlledSelection(value: Option<seq<string>>): (r: seq<ComboBoxOption>)
    ensures value.None? ==> r == []
    ensures value.Some? ==> |r| == |value.value|
    ensures forall i :: 0 <= i < |r| ==> r[i] == Plain(value.value[i])
  {
    var v := value.GetOr([]);
    seq(|v|, i requires 0 <= i < |v| => Plain(v[i]))
  }

  /** Reporting back the selection the primitive was given returns the
      caller's list unchanged; a missing list comes back empty. */
  lemma MultiRoundTrip(value: Option<seq<string>>)
    ensures MultiChange(ControlledSelection(value)) == value.GetOr([])
  {
  }

  /** The report keeps order and concatenation: when the primitive appends an
      option to the controlled selection, the caller's list gains exactly that
      option's value at the end. */
  lemma {:induction false} MultiChangeAppend(vals: seq<ComboBoxOption>, extra: seq<ComboBoxOption>)
    ensures MultiChange(vals + extra) == MultiChange(vals) + MultiChange(extra)
    decreases |vals|
  {
    if vals != [] {
      assert (vals + extra)[1..] == vals[1..] + extra;
      MultiChangeAppend(vals[1..], extra);
    }
  }

  lemma AppendedOptionReported(value: seq<string>, o: ComboBoxOption)
    ensures MultiChange(ControlledSelection(Some(value)) + [o]) == value + [OptionValue(o)]
  {
    MultiChangeAppend(ControlledSelection(Some(value)), [o]);
    MultiRoundTrip(Some(value));
  }

  datatype ValidationState = Valid | Invalid

  /** `isInvalid() ? 'invalid' : 'valid'` with `isInvalid = !!errorMessage`. */
  function Validation(errorMessage: Option<string>): (r: ValidationState)
    ensures r == Invalid <==> errorMessage.Some? && |errorMessage.value| > 0
    ensures errorMessage == Some("") ==> r == Valid
  {
    if IsPresent(errorMessage) then Invalid else Valid
  }

  /** The error line under the control shows exactly when the state is invalid. */
  predicate ShowsError(errorMessage: Option<string>) {
    IsPresent(errorMessage)
  }

  lemma ErrorShownIffInvalid(errorMessage: Option<string>)
    ensures ShowsError(errorMessage) <==> Validation(errorMessage) == Invalid
  {
  }

  datatype Mode = SingleSelect | MultiSelect

  /** `multiple === true` picks the multi-select rendering; anything else is single. */
  function ModeOf(multiple: Option<bool>): (r: Mode)
    ensures r == MultiSelect <==> multiple == Some(true)
  {
    if multiple == Some(true) then MultiSelect else SingleSelect
  }

  /** Multi-select input placeholder: shown only while nothing is selected. */
  function InputPlaceholder(selected: seq<ComboBoxOption>, placeholder: Option<string>): (r: Option<string>)
    ensures |selected| == 0 ==> r == placeholder
    ensures |selected| > 0 ==> r.None?
  {
    if |selected| == 0 then placeholder else None
  }
}

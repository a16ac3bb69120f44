/** Search: like ComboBox but single-select, with options supplied by the
    caller (through `onInputChange`) and a nullable value. */
module Search {
  import opened Wrappers
  import ComboBox

  /** `string | { value, label, disabled? }`. The accessors at
      src/components/search/index.tsx:37-50 are the ComboBox ones verbatim, so
      the option type and its accessors are shared. */
  type SearchOption = ComboBox.ComboBoxOption

  /** `onChange`: `val ? getOptionValue(val) : null`, with `null` as `None`. */
  function Change(val: Option<SearchOption>): (r: Option<string>)
    ensures val.None? ==> r.None?
    ensures val.Some? && val.value.Record? ==> r == Some(val.value.value)
    ensures val.Some? && val.value.Plain? ==> (r.None? <==> val.value.text == "")
    ensures r.Some? ==> val.Some? && r.value == ComboBox.OptionValue(val.value)
  {
    if val.Some? && ComboBox.IsTruthy(val.value) then Some(ComboBox.OptionValue(val.value)) else None
  }

  /** Choosing the string option `''` is reported as `null`, unlike ComboBox,
      which reports `''`. */
  lemma EmptyStringOptionReportsNull()
    ensures Change(Some(ComboBox.Plain(""))) == None
    ensures ComboBox.SingleChange(Some(ComboBox.Plain(""))) == ""
  {
  }

  /** The no-result slot renders iff the option list is empty and not loading. */
  function ShowsNoResult(options: seq<SearchOption>, loading: Option<bool>): (r: bool)
    ensures r <==> |options| == 0 && loading != Some(true)
  {
    |options| == 0 && !IsTrue(loading)
  }

  /** `noResultsMessage ?? 'No results found'`: only a missing message is replaced. */
  function NoResultText(message: Option<string>): (r: string)
    ensures message.None? ==> r == "No results found"
    ensures message.Some? ==> r == message.value
  {
    message.GetOr("No results found")
  }

  /** `validationState`: invalid iff the error message is a non-empty string. */
  function Validation(errorMessage: Option<string>): (r: ComboBox.ValidationState)
    ensures r == ComboBox.Invalid <==> errorMessage.Some? && |errorMessage.value| > 0
  {
    if IsPresent(errorMessage) then ComboBox.Invalid else ComboBox.Valid
  }
}

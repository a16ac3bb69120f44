/** DropdownMenu: the menu's gutter and the context-driven `Option` item. */
module DropdownMenu {
  import opened Wrappers
  import opened Menu

  /** `gutter ?? 8`. */
  function Gutter(gutter: Option<int>): (r: int)
    ensures gutter.None? ==> r == 8
    ensures gutter.Some? ==> r == gutter.value
  {
    gutter.GetOr(8)
  }

  /** `Option`: a radio item iff the context is `'single'`, otherwise (including
      no context) a checkbox item. `radioChecked` is the primitive's radio state,
      read only by a render function. */
  function OptionItem(ctx: Option<SelectKind>, p: OptionProps, radioChecked: bool): (r: MenuItem)
    ensures r.RadioItem? <==> ctx == Some(Single)
    ensures r.cls == OptionClass(p) && r.disabled == p.disabled
    ensures r.RadioItem? ==> r.value == p.value && r.closeOnSelect.None?
    ensures r.CheckboxItem? ==> r.checked == p.checked
    ensures r.content.Custom? <==> HasCustomRender(p.children)
    ensures r.content.Custom? && r.CheckboxItem? ==> r.content.checked == p.checked.GetOr(false)
    ensures r.content.Custom? && r.RadioItem? ==> r.content.checked == radioChecked
    ensures r.content.Default? ==> r.content.caption == p.caption
    ensures r.content.Default? ==> (r.content.indicator == DotIndicator <==> r.RadioItem?)
  {
    if ctx == Some(Single) then
      RadioItem(p.value, p.disabled, None, OptionClass(p),
        if HasCustomRender(p.children) then Custom(radioChecked) else Default(DotIndicator, p.caption))
    else
      CheckboxItem(p.checked, p.disabled, OptionClass(p),
        if HasCustomRender(p.children) then Custom(p.checked.GetOr(false)) else Default(CheckIndicator, p.caption))
  }

  /** An `Option` placed directly inside a `Select` becomes a checkbox item
      under `multiple` and a radio item otherwise. */
  lemma OptionInsideSelect(s: SelectProps, p: OptionProps, radioChecked: bool)
    ensures OptionItem(Some(SelectOf(s).context), p, radioChecked).CheckboxItem? <==> s.multiple == Some(true)
  {
  }
}

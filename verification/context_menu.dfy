/** ContextMenu: the context-driven `Option` item. It differs from the
    DropdownMenu one only in closing on select and in defaulting a missing
    radio state to unchecked. */
module ContextMenu {
  import opened Wrappers
  import opened Menu
  import DropdownMenu

  /** `Option`: a radio item (always `closeOnSelect`) iff the context is
      `'single'`, otherwise a checkbox item. `radioState` is the primitive's
      radio state, possibly absent: `state?.checked() ?? false`. */
  function OptionItem(ctx: Option<SelectKind>, p: OptionProps, radioState: Option<bool>): (r: MenuItem)
    ensures r.RadioItem? <==> ctx == Some(Single)
    ensures r.cls == OptionClass(p) && r.disabled == p.disabled
    ensures r.RadioItem? ==> r.value == p.value && r.closeOnSelect == Some(true)
    ensures r.CheckboxItem? ==> r.checked == p.checked
    ensures r.content.Custom? <==> HasCustomRender(p.children)
    ensures r.content.Custom? && r.CheckboxItem? ==> r.content.checked == p.checked.GetOr(false)
    ensures r.content.Custom? && r.RadioItem? ==> r.content.checked == radioState.GetOr(false)
    ensures r.content.Default? ==> r.content.caption == p.caption
    ensures r.content.Default? ==> (r.content.indicator == DotIndicator <==> r.RadioItem?)
  {
    if ctx == Some(Single) then
      RadioItem(p.value, p.disabled, Some(true), OptionClass(p),
        if HasCustomRender(p.children) then Custom(radioState.GetOr(false)) else Default(DotIndicator, p.caption))
    else
      CheckboxItem(p.checked, p.disabled, OptionClass(p),
        if HasCustomRender(p.children) then Custom(p.checked.GetOr(false)) else Default(CheckIndicator, p.caption))
  }

  /** Both menus dispatch an `Option` alike; they produce the same item except
      that the context-menu radio item sets `closeOnSelect`. */
  lemma MenusAgree(ctx: Option<SelectKind>, p: OptionProps, checked: bool)
    ensures OptionItem(ctx, p, Some(checked)).RadioItem? == DropdownMenu.OptionItem(ctx, p, checked).RadioItem?
    ensures ctx != Some(Single) ==> OptionItem(ctx, p, Some(checked)) == DropdownMenu.OptionItem(ctx, p, checked)
    ensures ctx == Some(Single) ==>
      OptionItem(ctx, p, Some(checked)) == DropdownMenu.OptionItem(ctx, p, checked).(closeOnSelect := Some(true))
  {
  }
}

/** What DropdownMenu and ContextMenu share: the `Select` context an `Option`
    reads, and the shape of the items an `Option` becomes. */
module Menu {
  import opened Wrappers

  /** The `OptionContext` value `Select` installs. */
  datatype SelectKind = Single | Multi

  /** An `Option`'s `children`: only a render function counts as custom rendering. */
  datatype Children = NoChildren | RenderFunction | Elements

  predicate HasCustomRender(c: Children) {
    c.RenderFunction?
  }

  datatype OptionProps = OptionProps(
    caption: Option<string>,     // the `label` prop
    value: Option<string>,
    checked: Option<bool>,
    disabled: Option<bool>,
    extraClass: Option<string>,  // the `class` prop
    children: Children)

  /** The item class: the indicator padding `pl-8 pr-2` and the caller's class. */
  datatype ItemClass = ItemClass(indicatorPadding: bool, extraClass: Option<string>)

  /** The indicator padding is added iff there is no render function. */
  function OptionClass(p: OptionProps): (r: ItemClass)
    ensures r.indicatorPadding <==> !p.children.RenderFunction?
    ensures r.extraClass == p.extraClass
  {
    ItemClass(!HasCustomRender(p.children), p.extraClass)
  }

  datatype Indicator = DotIndicator | CheckIndicator

  /** An item's content: the render function called with `{ checked }`, or the
      default indicator followed by the label. */
  datatype Content = Custom(checked: bool) | Default(indicator: Indicator, caption: Option<string>)

  datatype MenuItem =
    | RadioItem(value: Option<string>, disabled: Option<bool>, closeOnSelect: Option<bool>, cls: ItemClass, content: Content)
    | CheckboxItem(checked: Option<bool>, disabled: Option<bool>, cls: ItemClass, content: Content)

  datatype SelectProps = SelectProps(caption: Option<string>, multiple: Option<bool>, value: Option<string>)

  /** The group `Select` renders: a plain group, or a radio group bound to `value`. */
  datatype GroupKind = PlainGroup | RadioGroup(value: Option<string>)

  /** A rendered `Select`: its group, whether the label shows, the context it installs. */
  datatype SelectNode = SelectNode(group: GroupKind, showsLabel: bool, context: SelectKind)

  /** `Select`, identical in both menus: `multiple` (truthy) gives a plain group
      with a `'multi'` context, anything else a radio group with `'single'`. */
  function SelectOf(p: SelectProps): (r: SelectNode)
    ensures r.context == Multi <==> p.multiple == Some(true)
    ensures r.context == Single <==> r.group.RadioGroup?
    ensures r.group.RadioGroup? ==> r.group.value == p.value
    ensures r.showsLabel <==> IsPresent(p.caption)
  {
    if IsTrue(p.multiple) then SelectNode(PlainGroup, IsPresent(p.caption), Multi)
    else SelectNode(RadioGroup(p.value), IsPresent(p.caption), Single)
  }

  datatype ActionVariant = DefaultAction | DangerAction

  datatype ActionStyle = DangerClasses | DefaultClasses

  /** `ActionItem`: `variant === 'danger'` gets the danger classes, all else the default ones. */
  function ActionStyleOf(variant: Option<ActionVariant>): (r: ActionStyle)
    ensures r == DangerClasses <==> variant == Some(DangerAction)
  {
    if variant == Some(DangerAction) then DangerClasses else DefaultClasses
  }
}

/** Dialog: which accessible label the content gets, when Escape and outside
    clicks may close it, and which header parts render. */
module Dialog {
  import opened Wrappers

  /** `aria-label={title ? undefined : ariaLabel}`: forwarded only without a (non-empty) title. */
  function ContentAriaLabel(title: Option<string>, ariaLabel: Option<string>): (r: Option<string>)
    ensures IsPresent(title) ==> r.None?
    ensures !IsPresent(title) ==> r == ariaLabel
  {
    if IsPresent(title) then None else ariaLabel
  }

  /** The two dismissal gestures the primitive handles by closing. */
  datatype Gesture = EscapeKey | OutsidePointerDown

  datatype DismissSettings = DismissSettings(closeOnEscape: Option<bool>, closeOnClickOutside: Option<bool>)

  /** Whether a gesture closes the dialog: `onEscapeKeyDown` and
      `onPointerDownOutside` prevent the default close iff their setting is
      exactly `false`; a missing setting keeps it. */
  function Closes(s: DismissSettings, g: Gesture): (r: bool)
    ensures g == EscapeKey ==> (r <==> s.closeOnEscape != Some(false))
    ensures g == OutsidePointerDown ==> (r <==> s.closeOnClickOutside != Some(false))
  {
    match g
    case EscapeKey => !(s.closeOnEscape == Some(false))
    case OutsidePointerDown => !(s.closeOnClickOutside == Some(false))
  }

  /** Each setting gates only its own gesture, and the defaults close on both. */
  lemma DismissalIndependent(s: DismissSettings, e: Option<bool>, o: Option<bool>)
    ensures Closes(s.(closeOnClickOutside := o), EscapeKey) == Closes(s, EscapeKey)
    ensures Closes(s.(closeOnEscape := e), OutsidePointerDown) == Closes(s, OutsidePointerDown)
    ensures Closes(DismissSettings(None, None), EscapeKey) && Closes(DismissSettings(None, None), OutsidePointerDown)
  {
  }

  /** The header block and its parts. */
  datatype Header = NoHeader | HeaderBlock(title: Option<string>, description: Option<string>)

  /** The header renders iff there is a title or a description, and each part
      renders only if present. */
  function HeaderOf(title: Option<string>, description: Option<string>): (r: Header)
    ensures r.HeaderBlock? <==> IsPresent(title) || IsPresent(description)
    ensures r.HeaderBlock? ==> (r.title.Some? <==> IsPresent(title)) && (r.description.Some? <==> IsPresent(description))
    ensures r.HeaderBlock? && r.title.Some? ==> r.title == title
    ensures r.HeaderBlock? && r.description.Some? ==> r.description == description
  {
    if IsPresent(title) || IsPresent(description) then
      HeaderBlock(if IsPresent(title) then title else None,
                  if IsPresent(description) then description else None)
    else NoHeader
  }

  /** The content's accessible name: the rendered title, else the forwarded
      aria-label; an empty string names nothing. */
  function AccessibleName(title: Option<string>, description: Option<string>, ariaLabel: Option<string>): Option<string> {
    var h := HeaderOf(title, description);
    if h.HeaderBlock? && h.title.Some? then h.title
    else if IsPresent(ContentAriaLabel(title, ariaLabel)) then ContentAriaLabel(title, ariaLabel)
    else None
  }

  /** For the props the type admits (a `title`, or no `title` and an
      `aria-label`), the content is named exactly when the title or the
      aria-label is a non-empty string: by the title when there is one,
      otherwise by the aria-label. */
  lemma NamedIffTitleOrLabel(title: Option<string>, description: Option<string>, ariaLabel: Option<string>)
    requires title.Some? || ariaLabel.Some?
    ensures AccessibleName(title, description, ariaLabel).Some? <==> IsPresent(title) || IsPresent(ariaLabel)
    ensures IsPresent(title) ==> AccessibleName(title, description, ariaLabel) == title
    ensures !IsPresent(title) && IsPresent(ariaLabel) ==> AccessibleName(title, description, ariaLabel) == ariaLabel
  {
  }

  /** `{ title: '' }` satisfies the props' type, yet the content gets neither a
      title nor an aria-label. */
  lemma EmptyTitleLeavesUnnamed(description: Option<string>)
    ensures ContentAriaLabel(Some(""), None) == None
    ensures HeaderOf(Some(""), description).HeaderBlock? ==> HeaderOf(Some(""), description).title.None?
    ensures AccessibleName(Some(""), description, None).None?
  {
  }
}

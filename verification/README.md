# nsg-ui decision logic in Dafny

nsg-ui is a Solid component kit built on the Kobalte primitives. Almost all of
it is styling glue; this project models the parts that make decisions:

- **CommandBar** (`command_bar.dfy`): the palette's filtered view of its items,
  its highlighted row moved by the arrow keys with JavaScript's `%` (including
  the `NaN` an arrow press on an empty list produces), the clamp and reset
  effects, Enter, Escape and the global Cmd/Ctrl+K shortcut. `open` is a
  controlled prop, so handlers emit an *open request*; `Press` models a parent
  that honours it.
- **ComboBox / Search** (`combobox.dfy`, `search.dfy`): the option accessors,
  the mapping of the primitive's selection back to `''`, `null` or a list of
  values, validity, the multi-select placeholder and the no-result slot.
- **Toast** (`toast.dfy`): payload normalisation for `toast.<variant>` and
  `toast.update`, region defaults, the style tables and the two-flag latch that
  injects at most one region.
- **DropdownMenu / ContextMenu** (`menu.dfy`, `dropdown_menu.dfy`,
  `context_menu.dfy`): `Select` installing a `'single'` or `'multi'` context and
  `Option` becoming a radio or checkbox item from it.
- **Dialog** (`dialog.dfy`): the aria-label rule, Escape/outside-click gating,
  header visibility.
- **Demo site** (`theme.ts`, `CheckboxSection`, `SearchSection`,
  `ProgressSection`): theme cycling and dark-mode decision, tri-state "select
  all", the search handlers, the bounded progress steps.

The demo handlers close over the page's `allFruits` and `users` lists; the model
takes the list as a parameter, and `SearchDemo.AllFruits` and `SearchDemo.Users`
hold the page's values.

Shared pieces: `wrappers.dfy` (optional props and `??`), `text.dfy`
(`toLowerCase`, `includes`, `trim`), `seqs.dfy` (`filter`, `slice`, subsequence).
A field the source calls `label` is `caption` here (`label` is a Dafny keyword).

JavaScript truthiness is modelled exactly where the source relies on it: an
empty string is falsy, so a Dialog with `title: ''` still forwards its
aria-label (and, given none, is left without an accessible name although its
props' type admits it), and Search reports the string option `''` as `null`.

The multi-select `onChange` is a plain `map` over the primitive's selection
(`src/components/combobox/index.tsx:181`); the ComboBox neither diffs, adds nor
removes selections itself, and it does no filtering of its own.

## Model

| member | source | states |
|---|---|---|
| Text.TrimStartSpec | src/components/command-bar/index.tsx:60 | trim's leading cut is a whitespace prefix and stops at the first other character |
| Text.TrimEndSpec | src/components/command-bar/index.tsx:60 | trim's trailing cut is a whitespace suffix and stops at the last other character |
| Text.TrimIsInnerSlice | src/components/command-bar/index.tsx:60 | `trim()` yields the slice between the leading and trailing whitespace runs, with no whitespace at either end |
| Text.TrimEmptyIffBlank | src/components/command-bar/index.tsx:60-61 | `!q.trim()` holds exactly for all-whitespace strings |
| Text.Lower | src/components/command-bar/index.tsx:33 | lowering keeps the length and lowers each character independently |
| Text.LowerIdempotent | src/components/command-bar/index.tsx:33 | lowering an already lowered string changes nothing |
| Text.IndexOf | src/components/command-bar/index.tsx:34 | the search loop returns -1 iff the substring does not occur, else its first occurrence |
| Seqs.Filter | src/components/command-bar/index.tsx:61-62 | `filter` keeps exactly the elements satisfying the predicate and never grows |
| Seqs.FilterCounts | src/components/command-bar/index.tsx:61-62 | `filter` keeps each accepted element as many times as it occurs and drops every rejected one |
| Seqs.FilterIsSubsequence | src/components/command-bar/index.tsx:59-63 | `filter` keeps the original order |
| Seqs.Take | website/src/sections/SearchSection.tsx:84 | `slice(0, k)` is the first min(k, length) elements |
| CommandBar.SomeKeywordMatchesExists | src/components/command-bar/index.tsx:35 | `keywords.some(...)` holds iff some lowered keyword includes the query |
| CommandBar.DefaultFilterMatches | src/components/command-bar/index.tsx:32-37 | the default filter holds iff the lowered label or some lowered keyword includes the lowered query; without keywords only the label counts |
| CommandBar.Filtered | src/components/command-bar/index.tsx:59-63 | rows are never disabled; a blank query shows every enabled item, otherwise exactly the enabled items the filter accepts for the trimmed query |
| CommandBar.FilteredIsSubsequence | src/components/command-bar/index.tsx:59-63 | the rows are an order-preserving subsequence of `items` |
| CommandBar.BlankQueryShowsEnabled | src/components/command-bar/index.tsx:60-61 | a whitespace-only query shows exactly the enabled items in order |
| CommandBar.JsRem | src/components/command-bar/index.tsx:113-117 | JavaScript `%` with a positive divisor: result strictly between -n and n, Euclidean for a non-negative dividend, and for a negative one non-positive and congruent to it modulo n |
| CommandBar.ArrowDown | src/components/command-bar/index.tsx:111-114 | ArrowDown maps i to (i+1)%n on an in-range index, and to NaN on an empty list or a NaN index |
| CommandBar.ArrowUp | src/components/command-bar/index.tsx:115-118 | ArrowUp maps i to (i-1+n)%n on an in-range index, and to NaN on an empty list or a NaN index |
| CommandBar.ArrowsInverse | src/components/command-bar/index.tsx:111-118 | with n > 0 both arrows stay in [0,n) and undo each other |
| CommandBar.Clamp | src/components/command-bar/index.tsx:80-86 | an in-range index is kept, one at or past the end becomes max(0,n-1), so it is below n whenever n > 0 |
| CommandBar.ClampIdempotent | src/components/command-bar/index.tsx:81-86 | re-running the clamp effect changes nothing |
| CommandBar.Request | src/components/command-bar/index.tsx:109 | `onOpenChange?.(b)` requests b exactly when the callback is supplied |
| CommandBar.HandleGlobalKey | src/components/command-bar/index.tsx:89-97 | the shortcut handler never selects and does nothing when `globalShortcut === false` |
| CommandBar.Step | src/components/command-bar/index.tsx:103-128 | only a change of the `open` prop changes `open`; a selected item is an enabled, shown item of `items` and comes with a close request |
| CommandBar.InitialInv | src/components/command-bar/index.tsx:53-54 | the mounted state (empty query, index 0) is reachable-consistent |
| CommandBar.ClampStable | src/components/command-bar/index.tsx:81-86 | in a reachable state the clamp effect is a no-op |
| CommandBar.Reconfigure | src/components/command-bar/index.tsx:80-86 | when `items` or `filterFn` change, open and query are kept, an in-range highlight is kept, one past the new end moves to max(0,n-1), NaN stays NaN |
| CommandBar.ReconfigurePreservesInv | src/components/command-bar/index.tsx:80-86 | after a prop change the clamp restores the reset-and-range invariant for the new props |
| CommandBar.ShrinkMovesHighlight | src/components/command-bar/index.tsx:81-85 | shrinking the rows below the highlight moves it to the new last row |
| CommandBar.StepPreservesInv | src/components/command-bar/index.tsx:66-86 | every deliverable event keeps a closed bar reset and an integer highlight on a row (or 0 on an empty list) |
| CommandBar.EnterSelectsHighlighted | src/components/command-bar/index.tsx:119-126 | Enter selects the highlighted row and requests close; out of range or NaN it changes nothing |
| CommandBar.EscapeRequestsClose | src/components/command-bar/index.tsx:107-110 | Escape leaves the state and requests `open = false` |
| CommandBar.TypingResetsHighlight | src/components/command-bar/index.tsx:145-148 | typing sets the query and resets the highlight to 0 |
| CommandBar.CloseResets | src/components/command-bar/index.tsx:66-71 | closing resets the query to '' and the highlight to 0 |
| CommandBar.ShortcutRequestsToggle | src/components/command-bar/index.tsx:92-96 | Cmd/Ctrl+K requests `!open` and changes nothing else |
| CommandBar.ShortcutDisabled | src/components/command-bar/index.tsx:90 | with `globalShortcut === false` the shortcut has no effect |
| CommandBar.ShortcutTwiceRestores | src/components/command-bar/index.tsx:93-95 | under an honouring parent, two presses restore `open`, and from a closed bar the whole state |
| CommandBar.EmptyListArrowGivesNaN | src/components/command-bar/index.tsx:111-126 | an arrow on an empty list leaves NaN; Enter is then a no-op and typing restores index 0 |
| ComboBox.OptionValue | src/components/combobox/index.tsx:46-49 | a string option's value is itself, an object's its `value` (Search's identical accessors share this definition) |
| ComboBox.OptionLabel | src/components/combobox/index.tsx:51-54 | a string option's label is itself, an object's its `label` |
| ComboBox.OptionDisabled | src/components/combobox/index.tsx:56-59 | strings are never disabled; objects only with `disabled: true` |
| ComboBox.AccessorsIgnoreRepresentation | src/components/combobox/index.tsx:46-59 | a string option reads as `{value: s, label: s, disabled: false}`, a missing `disabled` as false; normalising is idempotent |
| ComboBox.SingleChange | src/components/combobox/index.tsx:95 | single-select reports the option's value, or '' with no option (the falsy '' option also gives '') |
| ComboBox.MultiChange | src/components/combobox/index.tsx:181 | multi-select reports a list of the same length and order, element-wise the option value |
| ComboBox.ControlledSelection | src/components/combobox/index.tsx:180 | a missing multi value is the empty selection; given values are passed as string options |
| ComboBox.MultiRoundTrip | src/components/combobox/index.tsx:180-181 | reporting back the selection the primitive was given returns the caller's list (or [] when missing) |
| ComboBox.MultiChangeAppend | src/components/combobox/index.tsx:181 | the report distributes over concatenation |
| ComboBox.AppendedOptionReported | src/components/combobox/index.tsx:180-181 | an option appended by the primitive appears once, at the end of the caller's list |
| ComboBox.Validation | src/components/combobox/index.tsx:101 | 'invalid' iff the error message is a non-empty string; '' is valid |
| ComboBox.ErrorShownIffInvalid | src/components/combobox/index.tsx:167-169 | the error line shows exactly when the state is invalid |
| ComboBox.ModeOf | src/components/combobox/index.tsx:86-89 | the multi-select branch is taken iff `multiple === true` |
| ComboBox.InputPlaceholder | src/components/combobox/index.tsx:257 | the placeholder shows only while nothing is selected |
| Search.Change | src/components/search/index.tsx:80 | reports the option's value, or null without an option (and for the falsy '' option) |
| Search.EmptyStringOptionReportsNull | src/components/search/index.tsx:80 | choosing the '' string option reports null, where ComboBox reports '' |
| Search.ShowsNoResult | src/components/search/index.tsx:160 | the no-result slot renders iff there are no options and not loading |
| Search.NoResultText | src/components/search/index.tsx:162 | the text is 'No results found' only when no message is given |
| Search.Validation | src/components/search/index.tsx:86 | invalid iff the error message is a non-empty string |
| Toast.ShowData | src/components/toast/index.tsx:266-270 | shown data keeps the payload's fields, adds the variant and always carries a `withCloseIcon` flag |
| Toast.ShowDuration | src/components/toast/index.tsx:275 | Infinity iff persistent, else the payload duration or 2000 |
| Toast.CloseIconUnlessFalse | src/components/toast/index.tsx:269 | the close button (checked again at line 170) shows unless the payload sets `withCloseIcon` to exactly false |
| Toast.UpdateData | src/components/toast/index.tsx:285-292 | update defaults the variant to info and the title to '', and carries no duration or persistence |
| Toast.UpdateWithSamePayload | src/components/toast/index.tsx:285-292 | updating with the payload a toast was shown with rebuilds its data minus duration and persistence |
| Toast.EmptyUpdateDefaults | src/components/toast/index.tsx:286-290 | an empty update is an info toast with title '', a close button and no description |
| Toast.ResolveRegion | src/components/toast/index.tsx:208-213 | region defaults bottom-right, 2000, 5, right, and pause-on-hover unless exactly false |
| Toast.InjectedRegionDefaults | src/components/toast/index.tsx:256 | the auto-injected region gets every default |
| Toast.EnsureRegion | src/components/toast/index.tsx:246-250 | injects iff neither flag is set, and then sets only `autoInjected` |
| Toast.ShowToast | src/components/toast/index.tsx:263-277 | every show runs `ensureRegion` first and passes the normalised data and duration |
| Toast.NoInjectionOnceSettled | src/components/toast/index.tsx:244-250 | once a region is mounted or injected, no later show injects |
| Toast.AtMostOneInjection | src/components/toast/index.tsx:206-217 | any run of shows and region mounts injects at most one region |
| Toast.TablesDistinguish | src/components/toast/index.tsx:119-156 | the variant and position tables give distinct entries to distinct keys |
| Menu.OptionClass | src/components/dropdown-menu/index.tsx:126-135 | indicator padding iff `children` is not a render function (same in the context menu) |
| Menu.SelectOf | src/components/dropdown-menu/index.tsx:237-268 | a truthy `multiple` installs 'multi' in a plain group, otherwise 'single' in a radio group bound to `value` (the context menu's Select is identical) |
| Menu.ActionStyleOf | src/components/dropdown-menu/index.tsx:83-85 | danger classes iff variant is 'danger' (the context menu's ActionItem is identical) |
| DropdownMenu.Gutter | src/components/dropdown-menu/index.tsx:39 | the gutter defaults to 8 |
| DropdownMenu.OptionItem | src/components/dropdown-menu/index.tsx:122-181 | radio item iff the context is 'single'; a checkbox render receives `checked ?? false`; padding and indicator follow the render mode |
| DropdownMenu.OptionInsideSelect | src/components/dropdown-menu/index.tsx:241-267 | an Option inside a Select is a checkbox item iff the Select is `multiple` |
| ContextMenu.OptionItem | src/components/context-menu/index.tsx:153-212 | radio item (with `closeOnSelect`) iff the context is 'single'; custom renders get `state?.checked() ?? false` or `checked ?? false` |
| ContextMenu.MenusAgree | src/components/context-menu/index.tsx:181-211 | both menus dispatch alike and differ only in `closeOnSelect` on radio items |
| Dialog.ContentAriaLabel | src/components/dialog/index.tsx:60 | the aria-label is forwarded only when there is no (non-empty) title |
| Dialog.Closes | src/components/dialog/index.tsx:61-62 | Escape and outside pointer-down close unless their setting is exactly false |
| Dialog.DismissalIndependent | src/components/dialog/index.tsx:61-62 | each setting gates only its own gesture; the defaults close on both |
| Dialog.HeaderOf | src/components/dialog/index.tsx:64-76 | the header renders iff a title or description is present, each part only if present |
| Dialog.NamedIffTitleOrLabel | src/components/dialog/index.tsx:18-21 | for type-valid props the content has an accessible name iff the title or the aria-label is a non-empty string: the title when present, else the aria-label |
| Dialog.EmptyTitleLeavesUnnamed | src/components/dialog/index.tsx:60-66 | the type-valid `{ title: '' }` without an aria-label renders neither a title nor an aria-label |
| Theme.IndexOf | website/src/theme.ts:28 | `indexOf` finds every theme in the list |
| Theme.Cycle | website/src/theme.ts:26-30 | light to dark to system to light; never returns its input |
| Theme.CycleThrice | website/src/theme.ts:26-30 | three cycles are the identity, two never are |
| Theme.DarkDecision | website/src/theme.ts:10 | dark iff theme is dark, or system with a dark preference; light never is |
| Theme.ParseSaved | website/src/theme.ts:14-20 | a stored string is accepted only if it names a theme, and every theme name is accepted |
| Theme.SavedRoundTrip | website/src/theme.ts:15-18 | reading back a saved theme name yields that theme |
| CheckboxDemo.AllChecked | website/src/sections/CheckboxSection.tsx:26 | holds iff every item is true |
| CheckboxDemo.AnyChecked | website/src/sections/CheckboxSection.tsx:27 | holds iff some item is true |
| CheckboxDemo.SomeChecked | website/src/sections/CheckboxSection.tsx:26-27 | holds iff some item is true and some is false; never together with AllChecked |
| CheckboxDemo.ToggleAllSettles | website/src/sections/CheckboxSection.tsx:29-31 | select-all sets all three items, AllChecked equals the new value and the box is not indeterminate |
| CheckboxDemo.ToggleItem | website/src/sections/CheckboxSection.tsx:33-39 | only the given index changes and the length is kept |
| CheckboxDemo.Master | website/src/sections/CheckboxSection.tsx:26-27 | the select-all box is checked iff all are, indeterminate iff some but not all |
| CheckboxDemo.ToggleItemMaster | website/src/sections/CheckboxSection.tsx:33-39 | checking one of several unchecked items makes the box indeterminate; checking the last unchecked one checks it |
| SearchDemo.FruitSearch | website/src/sections/SearchSection.tsx:46-56 | blank gives no fruits, else exactly the fruits whose lowered name includes the lowered untrimmed query |
| SearchDemo.FruitSearchOrdered | website/src/sections/SearchSection.tsx:52-54 | fruit results keep the order of `allFruits` |
| SearchDemo.UserSearch | website/src/sections/SearchSection.tsx:59-70 | blank gives every user, else exactly those whose lowered label or e-mail includes the lowered query |
| SearchDemo.AsyncIsFirstFiveFruits | website/src/sections/SearchSection.tsx:82-84 | the async answer is the first at most five results of the fruit filter |
| SearchDemo.BlankQueries | website/src/sections/SearchSection.tsx:48-77 | whitespace-only queries give no fruits, all users and no async results |
| SearchDemo.AsyncInputAsWritten | website/src/sections/SearchSection.tsx:73-79 | as written, clearing empties the results at once but neither stops loading nor drops the pending timer |
| SearchDemo.AsyncFireAsWritten | website/src/sections/SearchSection.tsx:81-87 | as written, a firing timer installs its answer and stops loading regardless of the current input |
| SearchDemo.StaleAnswerAfterClear | website/src/sections/SearchSection.tsx:73-87 | with any fruit list holding Apple, typing "a" then clearing leaves the spinner on with the timer for "a" pending, and after it fires a blank input showing a non-empty answer with no spinner |
| SearchDemo.StaleAnswerOnThePage | website/src/sections/SearchSection.tsx:15-22 | the page's own fruit list exhibits the stale answer |
| SearchDemo.AsyncInput | website/src/sections/SearchSection.tsx:73-79 | corrected: clearing also stops loading; other input schedules its query |
| SearchDemo.AsyncFire | website/src/sections/SearchSection.tsx:81-87 | corrected: an answer is installed only if it is for the current input |
| SearchDemo.AsyncStepConsistent | website/src/sections/SearchSection.tsx:73-87 | corrected: each keystroke or timer keeps the results equal to the current input's answer whenever not loading |
| SearchDemo.AsyncInitialConsistent | website/src/sections/SearchSection.tsx:41-43 | the mounted state (empty input, no results, not loading) satisfies the corrected invariant |
| SearchDemo.AsyncRunConsistent | website/src/sections/SearchSection.tsx:73-87 | corrected: every run of keystrokes and timers keeps that consistency |
| ProgressDemo.AnimatedStep | website/src/sections/ProgressSection.tsx:20 | 0 at or past 100, otherwise +5 |
| ProgressDemo.AnimatedCycle | website/src/sections/ProgressSection.tsx:16-21 | from 0, after n ticks the value is 5*(n mod 21): within [0,100] and a multiple of 5 |
| ProgressDemo.Press | website/src/sections/ProgressSection.tsx:52-58 | '-10' gives max(0, v-10), never negative; '+10' gives min(100, v+10), never above 100 |
| ProgressDemo.RunStaysInRange | website/src/sections/ProgressSection.tsx:52-58 | any press sequence from a multiple of 5 in [0,100] stays so |
| ProgressDemo.FromInitialValue | website/src/sections/ProgressSection.tsx:15 | from the initial 45 the value stays in [0,100] |

## Findings

| source | as written | input that shows it | evidently intended | confidence | as-written member | corrected member |
|---|---|---|---|---|---|---|
| website/src/sections/SearchSection.tsx:73-87 | clearing the async search field empties the results but leaves `loading` set and the earlier 500 ms timer pending; when it fires it installs its answer and stops loading, whatever the field now holds | on the page (`debounce={300}`, so each value reaches the handler 300 ms after the last keystroke): type "a", and clear the field within 200 ms of "a" being delivered, so that '' is delivered before the 500 ms timer fires; the field is blank with the spinner on, then the list shows Apple, Apricot, Avocado, Banana, Blackberry | a blank field shows no results and no spinner; an answer is used only for the query it was asked for | not executed; medium (demo code) | SearchDemo.StaleAnswerAfterClear | SearchDemo.AsyncRunConsistent |

## Left out

- Text.Lower: lowers ASCII `A`-`Z` only; JavaScript's `toLowerCase` also maps non-ASCII letters, which the model leaves unchanged.
- Everything the Kobalte primitives own: listbox filtering and keyboard navigation, focus trapping, positioning, portals, the Dialog's own Escape handling, the toaster's ids, queue, limit, timers, `dismiss` and `clear`, and Search's `debounceOptionsMillisecond`. Their behaviour is not in this source.
- The caller's `optionValue`, `optionLabel` and `optionDisabled` overrides (`src/components/combobox/index.tsx:96-99`, `src/components/search/index.tsx:81-84`) are handed to the primitive and not modelled; `onChange` always reports through the built-in value accessor, whatever override is given, and so does the model.
- DOM and timer side effects: registering the keydown listener, the `setTimeout` input focus, `render` into `document.body`, `localStorage` and `matchMedia` (the system preference is a parameter of `Theme.IsDark`), `setInterval` (ticks are counted instead).
- Callback props (`onSelect`, `onChange` of radio groups and checkbox items) and render props (`icon`, `itemComponent`, `trigger` and its fallback) are forwarded unchanged; the model records only when they are invoked and with what.
- Class strings: `cn` (tailwind-merge) is not part of this model, so item classes are records of the decisions (indicator padding, danger or default style) rather than strings; the toast tables are kept as strings.
- Progress `formatValue`: it uses floating-point division and `Math.round`.
- Numbers (durations, gutter, limit, progress values, indices) are unbounded integers; JavaScript doubles agree with them on every value these components use. NaN is modelled only for the CommandBar highlight, the one place it arises.
- CheckboxDemo.ToggleItem: requires an index within the list; the page only passes 0, 1 and 2, and an out-of-range write (which would lengthen a JavaScript array) is not modelled.
- CommandBar.Step: `items` and `filterFn` are fixed within a `Config`, so the clamp effect inside `Step` never changes a reachable state (`CommandBar.ClampStable`); a prop change is the separate `CommandBar.Reconfigure`, which applies the clamp against the new rows.
- CommandBar hover and click events are only delivered for rendered rows while the bar is open (`CommandBar.Fits`).
- The menus' `Group`, `Separator` and `Menu` components, DropdownMenu's `placement`/`triggerLabel` and ContextMenu's `disabled` trigger are plain pass-through and not modelled.

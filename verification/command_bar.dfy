/** The CommandBar palette: a query over a list of items, the filtered view of
    them, and a highlighted row moved by the keyboard. The `open` flag is a
    controlled prop: the component only asks its parent to change it. */
module CommandBar {
  import opened Wrappers
  import opened Text
  import Seqs

  /** A palette entry; `caption` is the source's `label` (a Dafny keyword).
      The render-only `icon` is not modelled. */
  datatype Item = Item(id: string, caption: string, disabled: Option<bool>, keywords: Option<seq<string>>)

  /** `!i.disabled` is false exactly for `disabled: true`. */
  predicate IsDisabled(item: Item) {
    IsTrue(item.disabled)
  }

  /** A caller-supplied `filterFn(item, query)`. */
  type FilterFn = (Item, string) -> bool

  /** `keywords.some(k => k.toLowerCase().includes(q))`. */
  predicate SomeKeywordMatches(keywords: seq<string>, q: string)
    decreases |keywords|
  {
    if keywords == [] then false
    else Contains(Lower(keywords[0]), q) || SomeKeywordMatches(keywords[1..], q)
  }

  /** The built-in filter: the lowered label or some lowered keyword includes the lowered query. */
  predicate DefaultFilter(item: Item, query: string) {
    var q := Lower(query);
    || Contains(Lower(item.caption), q)
    || (item.keywords.Some? && SomeKeywordMatches(item.keywords.value, q))
  }

  lemma {:induction false} SomeKeywordMatchesExists(keywords: seq<string>, q: string)
    ensures SomeKeywordMatches(keywords, q) <==> exists k :: k in keywords && Contains(Lower(k), q)
    decreases |keywords|
  {
    if keywords != [] {
      SomeKeywordMatchesExists(keywords[1..], q);
      assert forall k :: k in keywords <==> k == keywords[0] || k in keywords[1..];
    }
  }

  /** The default filter accepts an item iff its lowered label, or one of its
      lowered keywords, includes the lowered query; without keywords only the
      label counts. */
  lemma DefaultFilterMatches(item: Item, query: string)
    ensures DefaultFilter(item, query) <==>
      || Contains(Lower(item.caption), Lower(query))
      || (item.keywords.Some? && exists k :: k in item.keywords.value && Contains(Lower(k), Lower(query)))
    ensures item.keywords.None? || item.keywords == Some([]) ==>
      (DefaultFilter(item, query) <==> Contains(Lower(item.caption), Lower(query)))
  {
    if item.keywords.Some? {
      SomeKeywordMatchesExists(item.keywords.value, Lower(query));
    }
  }

  /** The component's props that the model keeps. `onOpenChange` records
      whether the optional callback was supplied. */
  datatype Config = Config(
    items: seq<Item>,
    filterFn: Option<FilterFn>,
    onOpenChange: bool,
    globalShortcut: Option<bool>)

  /** `local.filterFn ?? defaultFilter`. */
  function ActiveFilter(cfg: Config): FilterFn {
    if cfg.filterFn.Some? then cfg.filterFn.value else (item, q) => DefaultFilter(item, q)
  }

  /** The rows shown for `query`: enabled items only; a blank query shows all
      of them, otherwise the filter sees the trimmed query. */
  function Filtered(cfg: Config, query: string): (r: seq<Item>)
    ensures |r| <= |cfg.items|
    ensures Trim(query) == "" ==>
      forall x :: x in r <==> x in cfg.items && !IsDisabled(x)
    ensures Trim(query) != "" ==>
      forall x :: x in r <==> x in cfg.items && !IsDisabled(x) && ActiveFilter(cfg)(x, Trim(query))
  {
    var q := Trim(query);
    if q == "" then Seqs.Filter(cfg.items, i => !IsDisabled(i))
    else Seqs.Filter(cfg.items, i => !IsDisabled(i) && ActiveFilter(cfg)(i, q))
  }

  /** The filtered rows keep the order of `items`. */
  lemma FilteredIsSubsequence(cfg: Config, query: string)
    ensures Seqs.IsSubsequence(Filtered(cfg, query), cfg.items)
  {
    var q := Trim(query);
    if q == "" {
      Seqs.FilterIsSubsequence(cfg.items, i => !IsDisabled(i));
    } else {
      Seqs.FilterIsSubsequence(cfg.items, i => !IsDisabled(i) && ActiveFilter(cfg)(i, q));
    }
  }

  /** With a blank query the rows are exactly the enabled items, in order. */
  lemma BlankQueryShowsEnabled(cfg: Config, query: string)
    requires IsBlank(query)
    ensures Filtered(cfg, query) == Seqs.Filter(cfg.items, i => !IsDisabled(i))
  {
    TrimEmptyIffBlank(query);
  }

  /** The highlighted row index, a JavaScript number: an integer or `NaN`. */
  datatype Highlight = At(index: int) | NaN

  /** JavaScript's `a % n` for `n > 0`: the remainder takes the sign of `a`. */
  function JsRem(a: int, n: int): (r: int)
    requires n > 0
    ensures -n < r < n
    ensures a >= 0 ==> r == a % n
    ensures a < 0 ==> r <= 0 && (a - r) % n == 0
  {
    if a >= 0 then a % n else NegRem(a, n); -((-a) % n)
  }

  /** For a negative dividend the truncated remainder differs from `a` by a
      multiple of `n`. */
  lemma NegRem(a: int, n: int)
    requires a < 0 && n > 0
    ensures (a + (-a) % n) % n == 0
  {
    var q := (-a) / n;
    assert -a == n * q + (-a) % n;
    assert a + (-a) % n == -q * n;
    MultipleMod(-q, n);
  }

  lemma MultipleMod(k: int, n: int)
    requires n > 0
    ensures (k * n) % n == 0
  {
    var x := k * n;
    var d := k - x / n;
    assert x % n == n * d;
    assert d >= 1 ==> n * d >= n;
    assert d <= -1 ==> n * d <= -n;
  }

  /** ArrowDown: `i => (i + 1) % items.length`; `% 0` is `NaN`. */
  function ArrowDown(h: Highlight, n: nat): (r: Highlight)
    ensures n == 0 || h.NaN? ==> r.NaN?
    ensures n > 0 && h.At? && 0 <= h.index < n ==> r == At((h.index + 1) % n)
  {
    match h
    case NaN => NaN
    case At(i) => if n == 0 then NaN else At(JsRem(i + 1, n))
  }

  /** ArrowUp: `i => (i - 1 + items.length) % items.length`. */
  function ArrowUp(h: Highlight, n: nat): (r: Highlight)
    ensures n == 0 || h.NaN? ==> r.NaN?
    ensures n > 0 && h.At? && 0 <= h.index < n ==> r == At((h.index - 1 + n) % n)
  {
    match h
    case NaN => NaN
    case At(i) => if n == 0 then NaN else At(JsRem(i - 1 + n, n))
  }

  /** Both arrows keep an in-range highlight in range and undo each other. */
  lemma ArrowsInverse(i: int, n: nat)
    requires 0 <= i < n
    ensures ArrowDown(At(i), n).At? && 0 <= ArrowDown(At(i), n).index < n
    ensures ArrowUp(At(i), n).At? && 0 <= ArrowUp(At(i), n).index < n
    ensures ArrowUp(ArrowDown(At(i), n), n) == At(i)
    ensures ArrowDown(ArrowUp(At(i), n), n) == At(i)
  {
    if i + 1 < n {
      ModBelow(i + 1, n);
      ModShift(i, n);
    } else {
      ModSelf(n);
      ModBelow(n - 1, n);
    }
    if i > 0 {
      ModShift(i - 1, n);
      ModBelow(i, n);
    } else {
      ModBelow(n - 1, n);
      ModSelf(n);
    }
  }

  lemma ModBelow(a: int, n: int)
    requires 0 <= a < n
    ensures a % n == a
  {
  }

  lemma ModSelf(n: int)
    requires 0 < n
    ensures n % n == 0
  {
  }

  lemma ModShift(a: int, n: int)
    requires 0 <= a < n
    ensures (a + n) % n == a
  {
  }

  function Max(a: int, b: int): int {
    if a >= b then a else b
  }

  /** The clamp effect: an index at or past the end moves to the last row (or 0). */
  function Clamp(h: Highlight, n: nat): (r: Highlight)
    ensures h.At? && h.index < n ==> r == h
    ensures h.At? && h.index >= n ==> r == At(Max(0, n - 1))
    ensures h.At? && n > 0 ==> r.index < n
    ensures h.NaN? ==> r.NaN?
  {
    match h
    case NaN => NaN
    case At(i) => if i >= n then At(Max(0, n - 1)) else h
  }

  /** Clamping twice is clamping once. */
  lemma ClampIdempotent(h: Highlight, n: nat)
    ensures Clamp(Clamp(h, n), n) == Clamp(h, n)
  {
  }

  /** The component's view of its world: the `open` prop and its two signals. */
  datatype State = State(open: bool, query: string, highlight: Highlight)

  /** Signals right after mounting: empty query, first row highlighted. */
  function Initial(open: bool): State {
    State(open, "", At(0))
  }

  /** What a transition asks of its caller: `onSelect(item)` and `onOpenChange(b)`. */
  datatype Effects = Effects(selected: Option<Item>, openRequest: Option<bool>)

  const NoEffects := Effects(None, None)

  /** `local.onOpenChange?.(b)`: nothing is requested without the callback. */
  function Request(cfg: Config, b: bool): (r: Option<bool>)
    ensures r.Some? <==> cfg.onOpenChange
    ensures r.Some? ==> r.value == b
  {
    if cfg.onOpenChange then Some(b) else None
  }

  datatype Event =
    | KeyDown(key: string)                        // keydown in the search input
    | Input(value: string)                        // the input's text changed
    | GlobalKey(key: string, meta: bool, ctrl: bool) // keydown anywhere in the document
    | Hover(row: int)                             // the pointer entered a rendered row
    | Click(row: int)                             // a rendered row was clicked
    | SetOpen(open: bool)                         // the parent changed the `open` prop

  /** Events the page can actually deliver: input and row events need the
      dialog open, and a row event names a rendered row. */
  predicate Fits(cfg: Config, s: State, ev: Event) {
    match ev
    case KeyDown(_) => s.open
    case Input(_) => s.open
    case Hover(row) => s.open && 0 <= row < |Filtered(cfg, s.query)|
    case Click(row) => s.open && 0 <= row < |Filtered(cfg, s.query)|
    case GlobalKey(_, _, _) => true
    case SetOpen(_) => true
  }

  /** `handleKeyDown` on the input. */
  function HandleKeyDown(cfg: Config, s: State, key: string): (State, Effects) {
    var items := Filtered(cfg, s.query);
    if key == "Escape" then (s, Effects(None, Request(cfg, false)))
    else if key == "ArrowDown" then (s.(highlight := ArrowDown(s.highlight, |items|)), NoEffects)
    else if key == "ArrowUp" then (s.(highlight := ArrowUp(s.highlight, |items|)), NoEffects)
    else if key == "Enter" then
      (if s.highlight.At? && 0 <= s.highlight.index < |items|
       then (s, Effects(Some(items[s.highlight.index]), Request(cfg, false)))
       else (s, NoEffects))
    else (s, NoEffects)
  }

  /** The document-level Cmd/Ctrl+K handler; not installed when `globalShortcut === false`. */
  function HandleGlobalKey(cfg: Config, s: State, key: string, meta: bool, ctrl: bool): (r: Effects)
    ensures cfg.globalShortcut == Some(false) ==> r == NoEffects
    ensures r.selected.None?
  {
    if cfg.globalShortcut == Some(false) then NoEffects
    else if (meta || ctrl) && key == "k" then Effects(None, Request(cfg, !s.open))
    else NoEffects
  }

  /** The reset effect: it runs when `open` changes and clears the signals on close. */
  function ApplyOpen(s: State, open: bool): State {
    if open == s.open then s
    else if !open then State(false, "", At(0))
    else s.(open := true)
  }

  /** The immediate reaction to an event, before the clamp effect runs. */
  function React(cfg: Config, s: State, ev: Event): (State, Effects)
    requires Fits(cfg, s, ev)
  {
    match ev
    case KeyDown(key) => HandleKeyDown(cfg, s, key)
    case Input(v) => (State(s.open, v, At(0)), NoEffects)
    case GlobalKey(key, meta, ctrl) => (s, HandleGlobalKey(cfg, s, key, meta, ctrl))
    case Hover(row) => (s.(highlight := At(row)), NoEffects)
    case Click(row) => (s, Effects(Some(Filtered(cfg, s.query)[row]), Request(cfg, false)))
    case SetOpen(b) => (ApplyOpen(s, b), NoEffects)
  }

  /** One event followed by the clamp effect. Only `SetOpen` changes `open`; a
      selected item is always an enabled, currently shown item and comes with a
      close request. */
  function Step(cfg: Config, s: State, ev: Event): (r: (State, Effects))
    requires Fits(cfg, s, ev)
    ensures !ev.SetOpen? ==> r.0.open == s.open
    ensures ev.SetOpen? ==> r.0.open == ev.open
    ensures r.1.selected.Some? ==>
      && r.1.selected.value in Filtered(cfg, s.query)
      && r.1.selected.value in cfg.items
      && !IsDisabled(r.1.selected.value)
      && r.1.openRequest == Request(cfg, false)
    ensures r.1.openRequest.Some? ==> cfg.onOpenChange
    ensures r.0.highlight.At? && |Filtered(cfg, r.0.query)| > 0 ==> r.0.highlight.index < |Filtered(cfg, r.0.query)|
  {
    var (s', eff) := React(cfg, s, ev);
    (s'.(highlight := Clamp(s'.highlight, |Filtered(cfg, s'.query)|)), eff)
  }

  /** The parent passes new `items` or a new `filterFn`: the clamp effect
      re-runs against the new rows, pulling a highlight past the end back to
      the last row; nothing else changes. */
  function Reconfigure(cfg': Config, s: State): (r: State)
    ensures r.open == s.open && r.query == s.query
    ensures var n := |Filtered(cfg', s.query)|;
      && (s.highlight.At? && s.highlight.index < n ==> r.highlight == s.highlight)
      && (s.highlight.At? && s.highlight.index >= n ==> r.highlight == At(Max(0, n - 1)))
      && (s.highlight.NaN? ==> r.highlight.NaN?)
  {
    s.(highlight := Clamp(s.highlight, |Filtered(cfg', s.query)|))
  }

  /** A parent that passes its own setter as `onOpenChange` honours every request. */
  function Honor(cfg: Config, s: State, eff: Effects): State {
    if eff.openRequest.Some? then Step(cfg, s, SetOpen(eff.openRequest.value)).0 else s
  }

  /** An event followed by the parent honouring any open request. */
  function Press(cfg: Config, s: State, ev: Event): State
    requires Fits(cfg, s, ev)
  {
    var (s', eff) := Step(cfg, s, ev);
    Honor(cfg, s', eff)
  }

  /** What every reachable state satisfies: a closed bar has been reset, and an
      integer highlight points at a row (or at 0 when there are none). */
  ghost predicate Inv(cfg: Config, s: State) {
    && (!s.open ==> s.query == "" && s.highlight == At(0))
    && (s.highlight.At? ==> 0 <= s.highlight.index < Max(1, |Filtered(cfg, s.query)|))
  }

  lemma InitialInv(cfg: Config, open: bool)
    ensures Inv(cfg, Initial(open))
  {
  }

  /** In a reachable state the clamp effect changes nothing. */
  lemma ClampStable(cfg: Config, s: State)
    requires Inv(cfg, s)
    ensures Clamp(s.highlight, |Filtered(cfg, s.query)|) == s.highlight
  {
  }

  /** Every deliverable event keeps the state reachable, whether or not the
      parent honours the open request. */
  lemma StepPreservesInv(cfg: Config, s: State, ev: Event)
    requires Fits(cfg, s, ev)
    requires Inv(cfg, s)
    ensures Inv(cfg, Step(cfg, s, ev).0)
    ensures Inv(cfg, Press(cfg, s, ev))
  {
    var (s', eff) := Step(cfg, s, ev);
    match ev
    case KeyDown(key) =>
      var n := |Filtered(cfg, s.query)|;
      if key == "ArrowDown" && s.highlight.At? && n > 0 {
        ArrowsInverse(s.highlight.index, n);
      } else if key == "ArrowUp" && s.highlight.At? && n > 0 {
        ArrowsInverse(s.highlight.index, n);
      }
    case Input(_) =>
    case GlobalKey(_, _, _) =>
    case Hover(_) =>
    case Click(_) =>
    case SetOpen(_) =>
  }

  /** Enter on a highlighted row selects it and asks to close; with no valid
      highlight (out of range or `NaN`) it does nothing at all. */
  /** Changing the props keeps the invariant for the new props, so the clamp
      effect is what keeps Enter from selecting past the new last row. */
  lemma ReconfigurePreservesInv(cfg: Config, cfg': Config, s: State)
    requires Inv(cfg, s)
    ensures Inv(cfg', Reconfigure(cfg', s))
  {
  }

  /** Shrinking the list under a highlight on its old last row moves the
      highlight to the new last row. */
  lemma ShrinkMovesHighlight(cfg: Config, cfg': Config, s: State)
    requires Inv(cfg, s) && s.highlight.At?
    requires 0 < |Filtered(cfg', s.query)| <= s.highlight.index
    ensures Reconfigure(cfg', s).highlight == At(|Filtered(cfg', s.query)| - 1)
    ensures Inv(cfg', Reconfigure(cfg', s))
  {
    ReconfigurePreservesInv(cfg, cfg', s);
  }

  lemma EnterSelectsHighlighted(cfg: Config, s: State)
    requires s.open && Inv(cfg, s)
    ensures var items := Filtered(cfg, s.query);
      var r := Step(cfg, s, KeyDown("Enter"));
      if s.highlight.At? && s.highlight.index < |items| then
        r == (s, Effects(Some(items[s.highlight.index]), Request(cfg, false)))
      else
        r == (s, NoEffects)
  {
  }

  /** Escape leaves the state alone and asks to close. */
  lemma EscapeRequestsClose(cfg: Config, s: State)
    requires s.open && Inv(cfg, s)
    ensures Step(cfg, s, KeyDown("Escape")) == (s, Effects(None, Request(cfg, false)))
  {
  }

  /** Typing replaces the query and highlights the first row. */
  lemma TypingResetsHighlight(cfg: Config, s: State, v: string)
    requires s.open
    ensures Step(cfg, s, Input(v)) == (State(true, v, At(0)), NoEffects)
  {
  }

  /** Closing clears the query and highlights the first row again. */
  lemma CloseResets(cfg: Config, s: State)
    requires s.open
    ensures Step(cfg, s, SetOpen(false)).0 == Initial(false)
  {
  }

  /** Cmd/Ctrl+K asks for the opposite of the current `open` value. */
  lemma ShortcutRequestsToggle(cfg: Config, s: State, meta: bool, ctrl: bool)
    requires Inv(cfg, s)
    requires cfg.globalShortcut != Some(false) && (meta || ctrl)
    ensures Step(cfg, s, GlobalKey("k", meta, ctrl)) == (s, Effects(None, Request(cfg, !s.open)))
  {
  }

  /** With `globalShortcut === false` the shortcut has no effect whatsoever. */
  lemma ShortcutDisabled(cfg: Config, s: State, key: string, meta: bool, ctrl: bool)
    requires Inv(cfg, s)
    requires cfg.globalShortcut == Some(false)
    ensures Step(cfg, s, GlobalKey(key, meta, ctrl)) == (s, NoEffects)
  {
  }

  /** Under a parent that honours requests, pressing Cmd/Ctrl+K twice brings
      `open` back to where it was, and from a closed bar the whole state. */
  lemma {:induction false} ShortcutTwiceRestores(cfg: Config, s: State, meta: bool, ctrl: bool)
    requires Inv(cfg, s)
    requires cfg.onOpenChange && cfg.globalShortcut != Some(false) && (meta || ctrl)
    ensures Press(cfg, s, GlobalKey("k", meta, ctrl)).open == !s.open
    ensures Press(cfg, Press(cfg, s, GlobalKey("k", meta, ctrl)), GlobalKey("k", meta, ctrl)).open == s.open
    ensures !s.open ==> Press(cfg, Press(cfg, s, GlobalKey("k", meta, ctrl)), GlobalKey("k", meta, ctrl)) == s
  {
    var ev := GlobalKey("k", meta, ctrl);
    ShortcutRequestsToggle(cfg, s, meta, ctrl);
    StepPreservesInv(cfg, s, ev);
    var s1 := Press(cfg, s, ev);
    ShortcutRequestsToggle(cfg, s1, meta, ctrl);
  }

  /** An arrow on an empty list leaves the highlight `NaN`; Enter then does
      nothing, and typing restores a numeric highlight. */
  lemma EmptyListArrowGivesNaN(cfg: Config, s: State, v: string)
    requires s.open && Inv(cfg, s) && |Filtered(cfg, s.query)| == 0
    ensures var s1 := Step(cfg, s, KeyDown("ArrowDown")).0;
      && s1.highlight == NaN
      && Step(cfg, s1, KeyDown("Enter")) == (s1, NoEffects)
      && Step(cfg, s1, Input(v)).0.highlight == At(0)
  {
  }
}

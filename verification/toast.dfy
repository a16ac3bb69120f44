/** Toasts: how a payload becomes the data a toast renders, the region
    defaults, the style tables, and the latch that auto-injects at most one
    region. Ids, queueing, timers, `dismiss` and `clear` belong to the
    primitive toaster. */
module Toast {
  import opened Wrappers

  datatype Variant = Info | Success | Warning | Danger

  /** What `toast.<variant>(payload)` receives. */
  datatype Payload = Payload(
    title: string,
    description: Option<string>,
    withCloseIcon: Option<bool>,
    duration: Option<int>,
    persistent: Option<bool>)

  /** What a rendered toast reads: the payload fields plus its variant. */
  datatype ToastData = ToastData(
    title: string,
    description: Option<string>,
    withCloseIcon: Option<bool>,
    duration: Option<int>,
    persistent: Option<bool>,
    variant: Variant)

  /** A toast's lifetime in milliseconds; persistent toasts never expire. */
  datatype Duration = Finite(ms: int) | Infinity

  /** `withCloseIcon !== false`. */
  predicate NotFalse(b: Option<bool>) {
    b != Some(false)
  }

  /** The data `showToast` builds: `{ ...payload, variant, withCloseIcon: payload.withCloseIcon !== false }`. */
  function ShowData(variant: Variant, p: Payload): (d: ToastData)
    ensures d.title == p.title && d.description == p.description
    ensures d.duration == p.duration && d.persistent == p.persistent
    ensures d.variant == variant
    ensures d.withCloseIcon.Some?
  {
    ToastData(p.title, p.description, Some(NotFalse(p.withCloseIcon)), p.duration, p.persistent, variant)
  }

  /** The duration handed to the toaster: `persistent ? Infinity : (duration ?? 2000)`. */
  function ShowDuration(p: Payload): (r: Duration)
    ensures r == Infinity <==> p.persistent == Some(true)
    ensures r.Finite? && p.duration.Some? ==> r.ms == p.duration.value
    ensures r.Finite? && p.duration.None? ==> r.ms == 2000
  {
    if IsTrue(p.persistent) then Infinity else Finite(p.duration.GetOr(2000))
  }

  /** `ToastItem` shows the close button unless the data says `false`. */
  predicate ShowsCloseIcon(d: ToastData) {
    NotFalse(d.withCloseIcon)
  }

  /** `ToastItem` shows the description only when it is a non-empty string. */
  predicate ShowsDescription(d: ToastData) {
    IsPresent(d.description)
  }

  /** A shown toast has a close button unless the payload sets it to exactly
      `false`: the `!== false` test applied twice is the test applied once. */
  lemma CloseIconUnlessFalse(variant: Variant, p: Payload)
    ensures ShowsCloseIcon(ShowData(variant, p)) <==> p.withCloseIcon != Some(false)
    ensures p.withCloseIcon.None? ==> ShowsCloseIcon(ShowData(variant, p))
  {
  }

  /** What `toast.update(id, payload)` receives: every field optional. */
  datatype UpdatePayload = UpdatePayload(
    title: Option<string>,
    description: Option<string>,
    withCloseIcon: Option<bool>,
    duration: Option<int>,
    persistent: Option<bool>,
    variant: Option<Variant>)

  /** The data `update` builds; it keeps no duration or persistence. */
  function UpdateData(p: UpdatePayload): (d: ToastData)
    ensures d.variant == p.variant.GetOr(Info)
    ensures d.title == p.title.GetOr("")
    ensures d.description == p.description
    ensures d.duration.None? && d.persistent.None?
    ensures ShowsCloseIcon(d) <==> p.withCloseIcon != Some(false)
  {
    ToastData(p.title.GetOr(""), p.description, Some(NotFalse(p.withCloseIcon)), None, None, p.variant.GetOr(Info))
  }

  /** The update payload that restates a show payload and its variant. */
  function AsUpdate(variant: Variant, p: Payload): UpdatePayload {
    UpdatePayload(Some(p.title), p.description, p.withCloseIcon, p.duration, p.persistent, Some(variant))
  }

  /** Updating a toast with the payload it was shown with rebuilds the same
      data, except that the duration and persistence fields are dropped. */
  lemma UpdateWithSamePayload(variant: Variant, p: Payload)
    ensures UpdateData(AsUpdate(variant, p)) == ShowData(variant, p).(duration := None, persistent := None)
  {
  }

  /** An empty update is an info toast with an empty title and a close button. */
  lemma EmptyUpdateDefaults()
    ensures var d := UpdateData(UpdatePayload(None, None, None, None, None, None));
      d.variant == Info && d.title == "" && ShowsCloseIcon(d) && !ShowsDescription(d)
  {
  }

  // ---------------------------------------------------------------------------
  // Region

  datatype Position = TopLeft | TopCenter | TopRight | BottomLeft | BottomCenter | BottomRight

  datatype Swipe = SwipeUp | SwipeDown | SwipeLeft | SwipeRight

  datatype RegionProps = RegionProps(
    position: Option<Position>,
    duration: Option<int>,
    limit: Option<int>,
    swipeDirection: Option<Swipe>,
    pauseOnHover: Option<bool>)

  /** The settings `ToastRegion` passes on. */
  datatype RegionSettings = RegionSettings(
    position: Position,
    duration: int,
    limit: int,
    swipeDirection: Swipe,
    pauseOnInteraction: bool)

  /** `ToastRegion`'s defaulting of its props. */
  function ResolveRegion(p: RegionProps): (r: RegionSettings)
    ensures r.position == p.position.GetOr(BottomRight)
    ensures r.duration == p.duration.GetOr(2000)
    ensures r.limit == p.limit.GetOr(5)
    ensures r.swipeDirection == p.swipeDirection.GetOr(SwipeRight)
    ensures r.pauseOnInteraction <==> p.pauseOnHover != Some(false)
  {
    RegionSettings(
      p.position.GetOr(BottomRight),
      p.duration.GetOr(2000),
      p.limit.GetOr(5),
      p.swipeDirection.GetOr(SwipeRight),
      NotFalse(p.pauseOnHover))
  }

  /** The auto-injected `<ToastRegion />` gets every default. */
  lemma InjectedRegionDefaults()
    ensures ResolveRegion(RegionProps(None, None, None, None, None))
      == RegionSettings(BottomRight, 2000, 5, SwipeRight, true)
  {
  }

  /** The two module-level flags. */
  datatype Latch = Latch(regionMounted: bool, autoInjected: bool)

  const Fresh := Latch(false, false)

  /** `ensureRegion`: injects a region unless one is mounted or was injected.
      The boolean says whether this call injected. */
  function EnsureRegion(l: Latch): (r: (Latch, bool))
    ensures r.1 <==> !l.regionMounted && !l.autoInjected
    ensures r.1 ==> r.0 == l.(autoInjected := true)
    ensures !r.1 ==> r.0 == l
  {
    if l.regionMounted || l.autoInjected then (l, false)
    else (l.(autoInjected := true), true)
  }

  /** `ToastRegion`'s `onMount`. */
  function MountRegion(l: Latch): Latch {
    l.(regionMounted := true)
  }

  /** The result of `showToast`: the latch after `ensureRegion`, whether a
      region was injected, the toast's data and its duration. */
  datatype Shown = Shown(latch: Latch, injected: bool, data: ToastData, duration: Duration)

  /** `showToast(variant, payload)`: `ensureRegion` first, then the toaster
      receives the normalised data and duration. */
  function ShowToast(l: Latch, variant: Variant, p: Payload): (r: Shown)
    ensures (r.latch, r.injected) == EnsureRegion(l)
    ensures r.data == ShowData(variant, p)
    ensures r.duration == ShowDuration(p)
  {
    var (l', injected) := EnsureRegion(l);
    Shown(l', injected, ShowData(variant, p), ShowDuration(p))
  }

  /** What can happen to the flags: a toast is shown, or some region mounts
      (the caller's own, or the injected one). */
  datatype LatchEvent = ShowCall(variant: Variant, payload: Payload) | RegionMount

  function Apply(l: Latch, e: LatchEvent): (r: (Latch, bool)) {
    match e
    case ShowCall(v, p) => var s := ShowToast(l, v, p); (s.latch, s.injected)
    case RegionMount => (MountRegion(l), false)
  }

  /** How many regions a run of events injects. */
  function Injections(l: Latch, events: seq<LatchEvent>): nat
    decreases |events|
  {
    if events == [] then 0
    else
      var (l', injected) := Apply(l, events[0]);
      (if injected then 1 else 0) + Injections(l', events[1..])
  }

  /** Once a region is mounted or injected, no later call injects. */
  lemma {:induction false} NoInjectionOnceSettled(l: Latch, events: seq<LatchEvent>)
    requires l.regionMounted || l.autoInjected
    ensures Injections(l, events) == 0
    decreases |events|
  {
    if events != [] {
      NoInjectionOnceSettled(Apply(l, events[0]).0, events[1..]);
    }
  }

  /** Any run of shows and mounts injects at most one region. */
  lemma {:induction false} AtMostOneInjection(l: Latch, events: seq<LatchEvent>)
    ensures Injections(l, events) <= 1
    decreases |events|
  {
    if events != [] {
      var (l', injected) := Apply(l, events[0]);
      if injected {
        NoInjectionOnceSettled(l', events[1..]);
      } else {
        AtMostOneInjection(l', events[1..]);
      }
    }
  }

  // ---------------------------------------------------------------------------
  // Style tables

  datatype VariantStyle = VariantStyle(container: string, icon: string)

  /** `variantStyles`. */
  function StyleOf(v: Variant): VariantStyle {
    match v
    case Info => VariantStyle("border-primary-200 bg-primary-50", "text-primary-500")
    case Success => VariantStyle("border-success-200 bg-success-50", "text-success-500")
    case Warning => VariantStyle("border-warning-200 bg-warning-50", "text-warning-500")
    case Danger => VariantStyle("border-danger-200 bg-danger-50", "text-danger-500")
  }

  datatype Icon = InfoIcon | CheckCircleIcon | AlertTriangleIcon | AlertCircleIcon

  /** `variantIcons`. */
  function IconOf(v: Variant): Icon {
    match v
    case Info => InfoIcon
    case Success => CheckCircleIcon
    case Warning => AlertTriangleIcon
    case Danger => AlertCircleIcon
  }

  /** `positionStyles`. */
  function PositionClass(p: Position): string {
    match p
    case TopLeft => "top-4 left-4"
    case TopCenter => "top-4 left-1/2 -translate-x-1/2"
    case TopRight => "top-4 right-4"
    case BottomLeft => "bottom-4 left-4"
    case BottomCenter => "bottom-4 left-1/2 -translate-x-1/2"
    case BottomRight => "bottom-4 right-4"
  }

  /** The tables cover every variant and position and tell them apart: no two
      variants share a style or an icon, no two positions share a class. */
  lemma TablesDistinguish(v: Variant, w: Variant, p: Position, q: Position)
    ensures v != w ==> StyleOf(v).container != StyleOf(w).container && IconOf(v) != IconOf(w)
    ensures v != w ==> StyleOf(v).icon != StyleOf(w).icon
    ensures p != q ==> PositionClass(p) != PositionClass(q)
  {
  }
}

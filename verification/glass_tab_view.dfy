/**
  The whole widget: construction from a tab set, and one transition per
  user, host or main-queue event, composing the selection synchroniser and
  the collapse state machine. Haptic feedback is recorded in an abstract
  log instead of being played.
 */
module GlassTabView {
  import opened Wrappers
  import opened Tabs
  import Collapse
  import Selection

  /** The two feedback styles the widget plays. */
  datatype Haptic = Rigid | Heavy

  /** Why construction traps: the precondition on the count, or unwrapping the first tab of none. */
  datatype InitError = TooManyTabs | NoTabs

  datatype Widget = Widget(
    tabs: seq<TabItem>,
    sync: Selection.Sync,
    offsets: Collapse.Offsets,
    haptics: seq<Haptic>)

  /** Everything that can happen to a constructed widget. */
  datatype Event =
    | Tap(id: string)               // a tap on the bar entry of tab `id`
    | Swipe(id: string)             // the paged content settling on tab `id`
    | HostWrite(value: string)      // the host assigning its selection binding
    | DeferredWrite                 // the main queue running one write-back task
    | Gesture(g: Collapse.Gesture)  // a long press, drag sample, drag end or reveal tap

  /** What every reachable widget satisfies. */
  predicate Valid(w: Widget) {
    && 1 <= |w.tabs| <= MaxTabs
    && Selection.Synced(w.sync)
    && Collapse.Valid(w.offsets)
  }

  /**
    Construction. A binding supplied by the caller is kept as it is, a
    writable host cell or a `.constant` one; without one the widget uses a
    constant empty binding. The count precondition is checked
    before the first tab is unwrapped. Both selection fields start at the
    first tab; no write-back is queued, so the host binding keeps whatever
    value it had.
   */
  function Init(selection: Option<Selection.Binding>, items: seq<TabItem>): (r: Result<Widget, InitError>)
    ensures r.Success? <==> 1 <= |items| <= MaxTabs
    ensures |items| > MaxTabs ==> r == Failure(TooManyTabs)
    ensures |items| == 0 ==> r == Failure(NoTabs)
    ensures r.Success? ==> Valid(r.value)
    ensures r.Success? ==> r.value.tabs == items
    ensures r.Success? ==> r.value.sync.selected == items[0].id && r.value.sync.selectedInBar == items[0].id
    ensures r.Success? ==> r.value.offsets == Collapse.Initial && r.value.sync.pending == 0
    ensures r.Success? && selection.None? ==> r.value.sync.binding == Selection.Constant("")
    ensures r.Success? && selection.Some? ==> r.value.sync.binding == selection.value
  {
    var binding := match selection
      case None => Selection.Constant("")
      case Some(b) => b;
    if |items| > MaxTabs then Failure(TooManyTabs)
    else if |items| == 0 then Failure(NoTabs)
    else Success(Widget(items, Selection.Sync(items[0].id, items[0].id, binding, 0), Collapse.Initial, []))
  }

  /** Installs a new synchroniser state; the `selected` change handler plays a rigid haptic. */
  function WithSync(w: Widget, s: Selection.Sync): Widget {
    w.(sync := s, haptics := w.haptics + (if s.selected != w.sync.selected then [Rigid] else []))
  }

  /**
    One event. Selection events never touch the offsets and gestures never
    touch the selection; the haptic log only grows, by a rigid haptic
    exactly when `selected` changed and a heavy one on every long press.
   */
  function Step(w: Widget, e: Event): (r: Widget)
    ensures r.tabs == w.tabs
    ensures e.Gesture? ==> r.sync == w.sync
    ensures !e.Gesture? ==> r.offsets == w.offsets
    ensures r.haptics == w.haptics
                         + (if r.sync.selected != w.sync.selected then [Rigid] else [])
                         + (if e == Gesture(Collapse.LongPressed) then [Heavy] else [])
  {
    match e
    case Tap(id) => WithSync(w, Selection.SetSelected(w.sync, id))
    case Swipe(id) => WithSync(w, Selection.SetSelected(w.sync, id))
    case HostWrite(v) => WithSync(w, Selection.HostSet(w.sync, v))
    case DeferredWrite => WithSync(w, Selection.RunTask(w.sync))
    case Gesture(g) =>
      w.(offsets := Collapse.Apply(w.offsets, g),
         haptics := w.haptics + (if g.LongPressed? then [Heavy] else []))
  }

  function Run(w: Widget, es: seq<Event>): Widget
    decreases |es|
  {
    if |es| == 0 then w else Run(Step(w, es[0]), es[1..])
  }

  /** Every event keeps a widget valid. */
  lemma StepPreservesValid(w: Widget, e: Event)
    requires Valid(w)
    ensures Valid(Step(w, e))
  {
    match e
    case Gesture(g) => Collapse.ApplyPreservesValid(w.offsets, g);
    case Tap(id) => Selection.SetSelectedKeepsSynced(w.sync, id);
    case Swipe(id) => Selection.SetSelectedKeepsSynced(w.sync, id);
    case HostWrite(v) => Selection.HostSetKeepsSynced(w.sync, v);
    case DeferredWrite => Selection.RunTaskKeepsSynced(w.sync);
  }

  /** Across any event sequence a valid widget stays valid. */
  lemma {:induction false} RunPreservesValid(w: Widget, es: seq<Event>)
    requires Valid(w)
    ensures Valid(Run(w, es))
    decreases |es|
  {
    if |es| > 0 {
      StepPreservesValid(w, es[0]);
      RunPreservesValid(Step(w, es[0]), es[1..]);
    }
  }

  /**
    A tap on another tab selects it in both fields, plays one rigid haptic
    and queues one write-back without touching the binding yet; a tap on
    the selected tab changes nothing at all.
   */
  lemma TapCascade(w: Widget, t: string)
    ensures t == w.sync.selected <==> Step(w, Tap(t)) == w
    ensures t != w.sync.selected ==>
      var r := Step(w, Tap(t));
      && r.sync.selected == t && r.sync.selectedInBar == t
      && r.sync.binding == w.sync.binding
      && r.sync.pending == w.sync.pending + 1
      && r.haptics == w.haptics + [Rigid]
  {
  }

  /** Taps on the tabs `ids`, in order. */
  function Taps(ids: seq<string>): seq<Event> {
    seq(|ids|, i requires 0 <= i < |ids| => Tap(ids[i]))
  }

  /**
    After any non-empty run of taps both selection fields hold the last
    tapped tab, while the binding and the offsets are as they were.
   */
  lemma {:induction false} TapsSelectLast(w: Widget, ids: seq<string>)
    requires Valid(w) && |ids| > 0
    ensures Run(w, Taps(ids)).sync.selected == ids[|ids| - 1]
    ensures Run(w, Taps(ids)).sync.selectedInBar == ids[|ids| - 1]
    ensures Run(w, Taps(ids)).sync.binding == w.sync.binding
    ensures Run(w, Taps(ids)).offsets == w.offsets
    decreases |ids|
  {
    var w1 := Step(w, Tap(ids[0]));
    StepPreservesValid(w, Tap(ids[0]));
    assert Taps(ids)[1..] == Taps(ids[1..]);
    if |ids| > 1 {
      TapsSelectLast(w1, ids[1..]);
    }
  }

  /** The main queue running `n` tasks. */
  function DeferredWrites(n: nat): seq<Event> {
    seq(n, i => DeferredWrite)
  }

  /**
    Running every queued task as events is the synchroniser's drain: each
    only updates the binding, so the selection, the offsets and the haptic
    log stay as they were and the echo plays no haptic.
   */
  lemma {:induction false} DrainByEvents(w: Widget)
    requires Valid(w)
    ensures Run(w, DeferredWrites(w.sync.pending)) == w.(sync := Selection.Drain(w.sync))
    decreases w.sync.pending
  {
    var n := w.sync.pending;
    if n > 0 {
      Selection.RunTaskWhenSynced(w.sync);
      var w1 := Step(w, DeferredWrite);
      assert w1 == w.(sync := Selection.RunTask(w.sync));
      assert DeferredWrites(n)[1..] == DeferredWrites(n - 1);
      DrainByEvents(w1);
    }
  }

  /**
    The binding is written only once the queue runs: after a tap on a new
    tab and a drain, a host binding holds that tab and a constant one is
    unchanged.
   */
  lemma TapThenDrain(w: Widget, t: string)
    requires Valid(w) && t != w.sync.selected
    ensures
      var r := Run(w, [Tap(t)] + DeferredWrites(w.sync.pending + 1));
      && Selection.Settled(r.sync)
      && r.sync.selected == t
      && r.sync.binding == Selection.Write(w.sync.binding, t)
  {
    var w1 := Step(w, Tap(t));
    StepPreservesValid(w, Tap(t));
    DrainByEvents(w1);
    assert ([Tap(t)] + DeferredWrites(w.sync.pending + 1))[1..] == DeferredWrites(w1.sync.pending);
  }

  /**
    A host write of a new value is adopted by both fields, and after the
    queue drains the widget is settled with the binding holding that value;
    the echo of the write-back changes nothing further.
   */
  lemma HostWriteThenDrain(w: Widget, v: string)
    requires Valid(w) && w.sync.binding.Host? && v != w.sync.binding.value
    ensures
      var w1 := Step(w, HostWrite(v));
      var r := Run(w1, DeferredWrites(w1.sync.pending));
      && r.sync.selected == v && r.sync.selectedInBar == v
      && r.sync.binding == Selection.Host(v)
      && Selection.Settled(r.sync)
      && Step(r, DeferredWrite) == r
  {
    var w1 := Step(w, HostWrite(v));
    StepPreservesValid(w, HostWrite(v));
    Selection.HostWriteSettles(w.sync, v);
    DrainByEvents(w1);
  }

  /** The host binding's id at construction is not adopted, and nothing is written back to it. */
  lemma InitIgnoresHostValue(v: string, items: seq<TabItem>)
    requires 1 <= |items| <= MaxTabs && v != items[0].id
    ensures Init(Some(Selection.Host(v)), items).value.sync.selected != v
    ensures !Selection.Settled(Init(Some(Selection.Host(v)), items).value.sync)
  {
  }

  /** An event naming only tabs of `tabs`. */
  predicate KnownEvent(tabs: seq<TabItem>, e: Event) {
    match e
    case Tap(id) => HasTab(tabs, id)
    case Swipe(id) => HasTab(tabs, id)
    case HostWrite(v) => HasTab(tabs, v)
    case DeferredWrite => true
    case Gesture(_) => true
  }

  /**
    The widget never validates ids, but as long as every event names a tab
    of the set, the selection stays on a tab of the set.
   */
  lemma {:induction false} KnownSelectionStaysKnown(w: Widget, es: seq<Event>)
    requires Valid(w) && HasTab(w.tabs, w.sync.selected)
    requires forall i :: 0 <= i < |es| ==> KnownEvent(w.tabs, es[i])
    ensures HasTab(Run(w, es).tabs, Run(w, es).sync.selected)
    decreases |es|
  {
    if |es| > 0 {
      var w1 := Step(w, es[0]);
      StepPreservesValid(w, es[0]);
      if es[0].DeferredWrite? {
        if w.sync.pending > 0 {
          Selection.RunTaskWhenSynced(w.sync);
        }
      }
      assert HasTab(w1.tabs, w1.sync.selected);
      KnownSelectionStaysKnown(w1, es[1..]);
    }
  }

  /** The tab set built from any block of one to five tabs constructs a widget. */
  lemma BuiltTabsConstruct(selection: Option<Selection.Binding>, args: seq<TabItem>)
    requires Build(args).Some?
    ensures Init(selection, Build(args).value).Success?
    ensures Init(selection, Build(args).value).value.sync.selected == args[0].id
  {
  }
}

# GlassTabView state machine in Dafny

GlassTabView is a SwiftUI widget: a floating, pill-shaped tab bar over paged
content, with one to five tabs, a drag-to-collapse gesture and two-way
synchronisation of the selected tab with a binding owned by the host. This
project models the widget's state machine, not its rendering:

- `Tabs` (`tabs.dfy`): a tab reduced to its `id`, and the result builder's
  five fixed-arity `buildBlock` overloads, with `Build` standing for overload
  resolution on a block of tab expressions.
- `Collapse` (`collapse.dfy`): `yOffset`, `lastYOffset` and `collapsed`, with
  one pure transition per recognised gesture (long press, drag sample, drag
  end, reveal-button tap) and the `onChange(of: collapsed)` settle.
- `Selection` (`selection.dfy`): `selected`, `selectedInBar`, the binding
  (a host cell, or a `.constant` binding whose setter drops writes: one the
  caller supplied, or the `.constant("")` placeholder used when none is)
  and the queue of deferred write-back tasks. `SetSelected` is a tap or a
  swipe, `HostSet` the host writing its binding, `RunTask` the main queue
  running one task, `Drain` running them all.
- `GlassTabView` (`glass_tab_view.dfy`): construction, the composed widget,
  one `Step` per event, `Run` over event sequences, and the properties that
  hold across them. Haptic feedback is an abstract log (`Rigid` when
  `selected` changes, `Heavy` on each long press).

Modelling choices:

- An animated assignment (`withAnimation`) is a plain assignment.
- An `onChange` handler runs synchronously at the end of the event that
  changed its value, and only when the value actually differs. Tapping the
  selected tab, re-assigning `collapsed` its current value, or echoing the
  binding's own value therefore triggers nothing. As a consequence
  `selected == selectedInBar` after every event.
- The `didSet` observer of `selectedInBar` fires on every assignment and
  queues `DispatchQueue.main.async { binding = selectedInBar }`. The closure
  reads `selectedInBar` when it runs, not when it is queued, so all queued
  tasks are alike and the first-in first-out queue is represented by the
  number of tasks waiting (`pending`). A task runs only on a `DeferredWrite`
  event, so the write-back does not touch the binding until it runs.
- Offsets are exact `real`s: every value the code assigns to `yOffset` is 0,
  150 or a `+= 0.25` step, and `lastYOffset` takes drag translations.

Behaviours of the code worth noting:

- The ratchet test at GlassTabView.swift:80 is `translation - lastYOffset >= 0`,
  so a sample equal to the mark also moves the bar: samples 2, 5, 9, 9, 15
  from rest take five steps and end at 1.25 (`Collapse.RatchetSampleRun`).
- Nothing clamps `yOffset` at 150: dragging a collapsed bar keeps moving it
  down (`Collapse.HeldDragKeepsMoving`).
- A long press on a bar that is already collapsed does not re-settle it,
  and a reveal tap on an expanded bar held at a partial drag offset leaves
  it there, because `collapsed` does not change (`Collapse.Apply`).
- Construction queues no write-back and ignores the host binding's initial
  value (`GlassTabView.InitIgnoresHostValue`).
- The rigid haptic plays in the `selected` change handler, so a tap on the
  selected tab plays none, while a host write or a swipe that changes the
  selection does.

## Model

| member | source | states |
|---|---|---|
| Tabs.Build | Sources/GlassTabView/GlassTabView.swift:164-178 | a block of tabs builds exactly when it has 1 to 5 of them, and the result is the arguments in argument order |
| GlassTabView.Init | Sources/GlassTabView/GlassTabView.swift:4-11 | construction succeeds exactly for 1 to 5 tabs; more than 5 fails the count precondition and none fails the first-tab unwrap; on success both selections are the first tab's id, offsets are at rest, no write is queued, and the binding is the one the caller supplied, writable or constant, or else the constant empty one |
| GlassTabView.BuiltTabsConstruct | Sources/GlassTabView/GlassTabView.swift:6-10 | every tab set the builder can produce constructs a widget selecting its first tab |
| GlassTabView.InitIgnoresHostValue | Sources/GlassTabView/GlassTabView.swift:4-11 | a host binding whose initial id differs from the first tab is neither adopted nor overwritten at construction |
| Collapse.DragChanged | Sources/GlassTabView/GlassTabView.swift:79-84 | a drag sample moves the bar one 0.25 step exactly when it is at least the mark, the mark becomes the larger of the two, and `collapsed` is untouched |
| Collapse.DragRunIsHighWater | Sources/GlassTabView/GlassTabView.swift:79-84 | over any run of drag samples the mark is the running maximum and the bar moves one step per sample reaching the highest value seen before it, ties included |
| Collapse.RatchetSampleRun | Sources/GlassTabView/GlassTabView.swift:80-82 | samples 2, 5, 9, 9, 15 from rest end at offset 1.25 with mark 15 |
| Collapse.HeldDragKeepsMoving | Sources/GlassTabView/GlassTabView.swift:80-82 | holding a drag at the mark moves the bar one step per sample without bound, past the collapsed rest |
| Collapse.DragEnded | Sources/GlassTabView/GlassTabView.swift:85-93 | a release keeps both offsets when the bar is at least 1 down and resets both to 0 otherwise, so no offset strictly between 0 and 1 survives it |
| Collapse.ReleaseIdempotent | Sources/GlassTabView/GlassTabView.swift:85-93 | a second release changes nothing |
| Collapse.SetCollapsed | Sources/GlassTabView/GlassTabView.swift:117-129 | assigning `collapsed` leaves the state unchanged exactly when the value is already held; a change settles the bar at 150 (collapsed) or 0 (expanded) and clears the mark |
| Collapse.LongPressOverridesDrag | Sources/GlassTabView/GlassTabView.swift:72-76 | a long press on an expanded bar settles it collapsed at 150 with the mark cleared, whatever partial drag offset it held |
| Collapse.Apply | Sources/GlassTabView/GlassTabView.swift:98-101 | a reveal tap always leaves the bar expanded: a collapsed bar returns to the initial state, and an expanded one, even held at a partial drag offset, is left as it is; a long press always leaves it collapsed and changes nothing on a collapsed bar |
| Collapse.RunPreservesValid | Sources/GlassTabView/GlassTabView.swift:79-129 | across any gesture sequence both offsets stay non-negative, the bar offset stays a whole number of 0.25 steps, and a collapsed bar keeps `yOffset >= 150`, at or past the collapsed rest |
| Selection.Write | Sources/GlassTabView/GlassTabView.swift:5 | a `.constant` binding, supplied or the placeholder, ignores writes; a host binding takes the written value |
| Selection.SetBar | Sources/GlassTabView/GlassTabView.swift:19-24 | assigning the bar highlight queues one write-back and leaves the binding and `selected` untouched |
| Selection.SetSelected | Sources/GlassTabView/GlassTabView.swift:130-133 | assigning `selected` a new id copies it into the bar highlight and queues one write; assigning the current id changes nothing |
| Selection.HostSet | Sources/GlassTabView/GlassTabView.swift:137-139 | a host write of a new value is copied into `selected`; a write of the value already held, or to a constant binding, changes nothing |
| Selection.RunTask | Sources/GlassTabView/GlassTabView.swift:21-23 | a queued task writes the bar highlight as it is when the task runs into the binding |
| Selection.RunTaskWhenSynced | Sources/GlassTabView/GlassTabView.swift:137-139 | when the two fields agree, the read-back of a write-back echo reaches `selected` with the value it holds, so the task only updates the binding |
| Selection.SetSelectedKeepsSynced | Sources/GlassTabView/GlassTabView.swift:130-133 | a tap or swipe keeps `selected` and `selectedInBar` equal, since a change of `selected` is copied into `selectedInBar` in the same event |
| Selection.HostSetKeepsSynced | Sources/GlassTabView/GlassTabView.swift:137-139 | a host write keeps `selected` and `selectedInBar` equal |
| Selection.RunTaskKeepsSynced | Sources/GlassTabView/GlassTabView.swift:21-23 | a write-back task keeps `selected` and `selectedInBar` equal |
| Selection.Drain | Sources/GlassTabView/GlassTabView.swift:19-24 | running the queue always terminates with it empty; from agreeing fields the selection is kept, and with at least one task queued a host binding ends holding it; a constant binding is never changed |
| Selection.HostWriteSettles | Sources/GlassTabView/GlassTabView.swift:137-139 | a host write of a new id is adopted by both fields, and after the queue drains the binding holds it and nothing is left to propagate |
| Selection.SettledIsFixedPoint | Sources/GlassTabView/GlassTabView.swift:19-24 | in a settled state running the queue, draining it, or the host re-writing the binding's value all change nothing |
| GlassTabView.Step | Sources/GlassTabView/GlassTabView.swift:58-139 | selection events leave the offsets alone and gestures leave the selection alone; the haptic log gains a rigid entry exactly when `selected` changed and a heavy one on every long press |
| GlassTabView.RunPreservesValid | Sources/GlassTabView/GlassTabView.swift:14-18 | across any event sequence the tab set stays 1 to 5 long, the two selection fields agree, and the offset invariant holds |
| GlassTabView.TapCascade | Sources/GlassTabView/GlassTabView.swift:58-61 | a tap on another tab sets both fields to it, plays one rigid haptic and queues one write without touching the binding; a tap on the selected tab changes nothing |
| GlassTabView.TapsSelectLast | Sources/GlassTabView/GlassTabView.swift:130-133 | after any non-empty run of taps both fields hold the last tapped id, the binding is not yet written and the offsets are unchanged |
| GlassTabView.DrainByEvents | Sources/GlassTabView/GlassTabView.swift:19-24 | running every queued task as events only updates the binding: selection, offsets and haptic log are unchanged |
| GlassTabView.TapThenDrain | Sources/GlassTabView/GlassTabView.swift:21-23 | after a tap on a new tab and a drained queue, a host binding holds that tab, a constant one is unchanged, and the widget is settled |
| GlassTabView.HostWriteThenDrain | Sources/GlassTabView/GlassTabView.swift:137-139 | a host write of a new value is adopted by both fields, the drained widget is settled with the binding holding it, and a further write-back task is a no-op |
| GlassTabView.KnownSelectionStaysKnown | Sources/GlassTabView/GlassTabView.swift:137-139 | ids are never validated, but while every event names a tab of the set the selection stays on a tab of the set |

## Left out

- Rendering and layout (stacks, colours, blur, shadows, `scaleEffect`, the
  reveal button's `150 + -yOffset` position) and `matchedGeometryEffect`:
  no logic beyond the offset value.
- Animation curves: `withAnimation(.bouncy)` is an instantaneous assignment,
  so the transient disagreement of `selected` and `selectedInBar` during an
  animation is not modelled.
- Haptics are log entries; `UIImpactFeedbackGenerator` itself is not modelled.
- `TabItem`'s title, icon and content views and its `UUID().uuidString`
  default id: a tab is its `id` only.
- The paged `TabView` swipe mechanics: a swipe is an event that sets `selected`.
- Gesture recognition thresholds (`minimumDistance: 2.5`,
  `minimumDuration: 0.25`): the model receives recognised events.
- `DispatchQueue` scheduling: replaced by an explicit count of queued tasks
  run by `DeferredWrite` events; other work on the main queue is not modelled.
- SwiftUI's coalescing of several changes within one update pass: each
  assignment that changes a watched value fires its handler once.
- Tab ids are compared as sequences of Unicode scalars, while Swift's
  `String ==` compares canonically equivalent strings as equal: ids that
  differ only in Unicode normalisation are one id to the widget and two in
  the model (Dafny has no Unicode normalisation).
- Collapse.DragChanged: offsets are exact reals; `CGFloat` (binary64)
  rounding of translations and of large offsets is not modelled.
- `Package.swift`: a build manifest with no logic.

/**
  The selection synchroniser.

  Two fields track the selected tab: `selected` drives the paged content,
  `selectedInBar` drives the bar highlight. A change of `selected` is copied
  into `selectedInBar`; every assignment to `selectedInBar` queues a task on
  the main queue that later copies `selectedInBar`, as it is when the task
  runs, into the host's binding; and a change of the binding is copied back
  into `selected`. Change handlers run at once, and only when the observed
  value actually differs.
 */
module Selection {

  /**
    The selection binding. `Host` is a cell the host owns; `Constant` is a
    `.constant` binding, either one the caller supplied or the
    `.constant("")` placeholder used when none is, whose setter drops every
    write and whose value never changes.
   */
  datatype Binding = Constant(value: string) | Host(value: string)

  /** The binding after its setter is called with `v`. */
  function Write(b: Binding, v: string): (r: Binding)
    ensures r.Constant? <==> b.Constant?
    ensures r.Constant? ==> r == b
    ensures r.Host? ==> r.value == v
  {
    match b
    case Constant(_) => b
    case Host(_) => Host(v)
  }

  /**
    The synchroniser's state. Every queued write-back task is the same
    closure reading `selectedInBar` when it runs, so the first-in first-out
    queue is represented by the number of tasks waiting in it.
   */
  datatype Sync = Sync(selected: string, selectedInBar: string, binding: Binding, pending: nat)

  /** The content and the bar highlight agree. */
  predicate Synced(s: Sync) {
    s.selected == s.selectedInBar
  }

  /**
    Nothing is left to propagate: the fields agree, the queue is empty and
    a host binding already holds the selection.
   */
  predicate Settled(s: Sync) {
    && Synced(s)
    && s.pending == 0
    && (s.binding.Host? ==> s.binding.value == s.selectedInBar)
  }

  /**
    Assigning the bar highlight. Its observer fires on every assignment and
    only queues the write: the binding is not touched yet.
   */
  function SetBar(s: Sync, v: string): (r: Sync)
    ensures r.selectedInBar == v
    ensures r.pending == s.pending + 1
    ensures r.selected == s.selected && r.binding == s.binding
  {
    s.(selectedInBar := v, pending := s.pending + 1)
  }

  /**
    Assigning the content selection, as a tab tap or a page swipe does.
    When the value changes, the change handler copies it into the bar
    highlight, which queues one write-back; otherwise nothing happens.
   */
  function SetSelected(s: Sync, t: string): (r: Sync)
    ensures r.selected == t
    ensures r.binding == s.binding
    ensures t == s.selected <==> r == s
    ensures t != s.selected ==> r.selectedInBar == t && r.pending == s.pending + 1
  {
    if t == s.selected then s
    else SetBar(s.(selected := t), t)
  }

  /**
    The host writing `v` into its binding. The change handler fires only
    when the value differs, and then assigns `selected`. A constant binding
    has no host that could write it.
   */
  function HostSet(s: Sync, v: string): (r: Sync)
    ensures s.binding.Constant? ==> r == s
    ensures s.binding.Host? ==> r.binding == Host(v)
    ensures s.binding.Host? && v == s.binding.value ==> r == s
    ensures s.binding.Host? && v != s.binding.value ==> r.selected == v
  {
    match s.binding
    case Constant(_) => s
    case Host(b) =>
      if v == b then s
      else SetSelected(s.(binding := Host(v)), v)
  }

  /**
    The main queue running the oldest write-back task, if there is one: the
    task writes the current bar highlight into the binding, and a change of
    the binding's value fires the read-back handler.
   */
  function RunTask(s: Sync): (r: Sync)
    ensures s.pending == 0 ==> r == s
    ensures s.pending > 0 ==> r.binding == Write(s.binding, s.selectedInBar)
  {
    if s.pending == 0 then s
    else
      var s1 := s.(pending := s.pending - 1);
      var b := Write(s1.binding, s1.selectedInBar);
      if b == s1.binding then s1
      else SetSelected(s1.(binding := b), b.value)
  }

  /**
    Running queued tasks until the queue is empty. Each task removes
    itself and queues at most one further task, and only when it also
    brings the two fields into agreement, so the echo of a write-back
    always dies out.
   */
  function Drain(s: Sync): (r: Sync)
    ensures r.pending == 0
    ensures s.pending == 0 ==> r == s
    ensures Synced(s) && s.pending > 0 ==> Settled(r)
    ensures r.binding.Constant? ==> r.binding == s.binding
    ensures Synced(s) ==> r.selected == s.selected && r.selectedInBar == s.selectedInBar
    ensures Synced(s) && s.pending > 0 ==> r.binding == Write(s.binding, s.selectedInBar)
    decreases 2 * s.pending + (if Synced(s) then 0 else 1)
  {
    if s.pending == 0 then s else Drain(RunTask(s))
  }

  /**
    In agreeing fields, a write-back task only updates the binding: the
    echo it causes reaches `selected` with the value it already holds.
   */
  lemma RunTaskWhenSynced(s: Sync)
    requires Synced(s) && s.pending > 0
    ensures RunTask(s) == s.(pending := s.pending - 1, binding := Write(s.binding, s.selectedInBar))
  {
  }

  /** A tap or swipe leaves the two fields in agreement. */
  lemma SetSelectedKeepsSynced(s: Sync, t: string)
    requires Synced(s)
    ensures Synced(SetSelected(s, t))
  {
  }

  /** A host write leaves the two fields in agreement. */
  lemma HostSetKeepsSynced(s: Sync, v: string)
    requires Synced(s)
    ensures Synced(HostSet(s, v))
  {
  }

  /** A write-back task leaves the two fields in agreement. */
  lemma RunTaskKeepsSynced(s: Sync)
    requires Synced(s)
    ensures Synced(RunTask(s))
  {
  }

  /**
    A host write of a new value is adopted by both fields, and once the
    queue drains the binding holds that value and the state is settled.
   */
  lemma HostWriteSettles(s: Sync, v: string)
    requires Synced(s) && s.binding.Host? && v != s.binding.value
    ensures HostSet(s, v).selected == v && HostSet(s, v).selectedInBar == v
    ensures HostSet(s, v).pending == s.pending + (if v == s.selected then 0 else 1)
    ensures Drain(HostSet(s, v)).binding == Host(v)
    ensures Settled(Drain(HostSet(s, v)))
  {
    var h := HostSet(s, v);
    if h.pending == 0 {
      assert h.binding == Host(v);
    }
  }

  /** A settled state is a fixed point of every pending-queue and echo transition. */
  lemma SettledIsFixedPoint(s: Sync)
    requires Settled(s)
    ensures RunTask(s) == s
    ensures Drain(s) == s
    ensures HostSet(s, s.binding.value) == s
  {
  }
}

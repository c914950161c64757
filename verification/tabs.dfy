/**
  The tab descriptors and the result builder that collects them.

  Only a tab's identity takes part in the widget's state machine; its title,
  icon and content are opaque views and are not modelled.
 */
module Tabs {
  import opened Wrappers

  /** The largest tab set the widget accepts. */
  const MaxTabs: nat := 5

  /** One tab, reduced to its identity. */
  datatype TabItem = TabItem(id: string)

  /** True when some tab of `tabs` carries identity `id`. */
  predicate HasTab(tabs: seq<TabItem>, id: string) {
    exists i :: 0 <= i < |tabs| && tabs[i].id == id
  }

  // The five fixed-arity builder blocks, one per supported tab count.

  function BuildBlock1(t1: TabItem): seq<TabItem> {
    [t1]
  }

  function BuildBlock2(t1: TabItem, t2: TabItem): seq<TabItem> {
    [t1, t2]
  }

  function BuildBlock3(t1: TabItem, t2: TabItem, t3: TabItem): seq<TabItem> {
    [t1, t2, t3]
  }

  function BuildBlock4(t1: TabItem, t2: TabItem, t3: TabItem, t4: TabItem): seq<TabItem> {
    [t1, t2, t3, t4]
  }

  function BuildBlock5(t1: TabItem, t2: TabItem, t3: TabItem, t4: TabItem, t5: TabItem): seq<TabItem> {
    [t1, t2, t3, t4, t5]
  }

  /**
    What the builder does with a block holding the tab expressions `args`,
    in order: the overload whose arity matches is chosen, and a block of
    no tabs or of more than five has no overload (`None`), which the
    compiler rejects.
   */
  function Build(args: seq<TabItem>): (r: Option<seq<TabItem>>)
    ensures r.Some? <==> 1 <= |args| <= MaxTabs
    ensures r.Some? ==> r.value == args
  {
    if |args| == 1 then Some(BuildBlock1(args[0]))
    else if |args| == 2 then Some(BuildBlock2(args[0], args[1]))
    else if |args| == 3 then Some(BuildBlock3(args[0], args[1], args[2]))
    else if |args| == 4 then Some(BuildBlock4(args[0], args[1], args[2], args[3]))
    else if |args| == 5 then Some(BuildBlock5(args[0], args[1], args[2], args[3], args[4]))
    else None
  }
}

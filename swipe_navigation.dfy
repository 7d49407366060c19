/** Tab navigation by horizontal swipes
    (src/components/enhanced/MobileSwipeNavigation.tsx): the rule that picks
    the neighbouring tab when a drag ends, the preview shown while dragging,
    and the drag state the handlers keep. */
module SwipeNavigation {
  import opened Common

  /** A tab of the navigation; its label is `caption` here; its icon and description are presentation. */
  datatype Tab = Tab(id: string, caption: string)

  /** An offset beyond this many pixels is a swipe. */
  const SWIPE_THRESHOLD: real := 100.0
  /** So is a release faster than this many pixels per second. */
  const VELOCITY_THRESHOLD: real := 500.0
  /** The preview appears once the content moved this far. */
  const PREVIEW_THRESHOLD: real := 20.0

  function Abs(x: real): real { if x < 0.0 then -x else x }

  /** `tabs.findIndex(tab => tab.id === activeTab)`: -1 when no tab matches. */
  function FindIndex(tabs: seq<Tab>, activeTab: string): (i: int)
    ensures -1 <= i < |tabs|
    ensures i >= 0 ==> tabs[i].id == activeTab && forall j :: 0 <= j < i ==> tabs[j].id != activeTab
    ensures i == -1 <==> forall j :: 0 <= j < |tabs| ==> tabs[j].id != activeTab
  {
    if tabs == [] then -1
    else if tabs[0].id == activeTab then 0
    else
      var k := FindIndex(tabs[1..], activeTab);
      if k == -1 then -1 else k + 1
  }

  predicate IsSwipe(offsetX: real, velocityX: real) {
    Abs(offsetX) > SWIPE_THRESHOLD || Abs(velocityX) > VELOCITY_THRESHOLD
  }

  /** `handleDragEnd`'s choice: a swipe to the right goes to the previous
      tab, one to the left to the next, and nothing moves past either end. */
  function TabAfterDragEnd(tabCount: nat, current: int, offsetX: real, velocityX: real): (r: Option<nat>)
    requires -1 <= current < tabCount
    ensures r.Some? ==> r.value < tabCount && IsSwipe(offsetX, velocityX)
    ensures (r.Some? && r.value == current - 1) <==> IsSwipe(offsetX, velocityX) && offsetX > 0.0 && current > 0
    ensures (r.Some? && r.value == current + 1) <==> IsSwipe(offsetX, velocityX) && offsetX < 0.0 && current < tabCount - 1
    ensures r.Some? ==> r.value == current - 1 || r.value == current + 1
  {
    if IsSwipe(offsetX, velocityX) then
      if offsetX > 0.0 && current > 0 then Some(current - 1)
      else if offsetX < 0.0 && current < tabCount - 1 then Some(current + 1)
      else None
    else None
  }

  /** A release without horizontal offset never changes the tab, whatever
      its speed; with no tab selected a left swipe selects the first. */
  lemma DragEndEdges(tabCount: nat, current: int, velocityX: real, offsetX: real)
    requires -1 <= current < tabCount
    ensures TabAfterDragEnd(tabCount, current, 0.0, velocityX).None?
    ensures tabCount > 0 && offsetX < -SWIPE_THRESHOLD ==> TabAfterDragEnd(tabCount, -1, offsetX, velocityX) == Some(0)
    ensures TabAfterDragEnd(tabCount, -1, offsetX, velocityX) != Some(0) || offsetX < 0.0
  {
  }

  /** A swipe one way undoes a swipe the other way. */
  lemma SwipeBackReturns(tabCount: nat, current: nat, offsetX: real, velocityX: real)
    requires current < tabCount
    requires IsSwipe(offsetX, velocityX) && offsetX != 0.0
    ensures var r := TabAfterDragEnd(tabCount, current, offsetX, velocityX);
      r.Some? ==> TabAfterDragEnd(tabCount, r.value, -offsetX, velocityX) == Some(current)
  {
  }

  /** The neighbouring tab the swipe indicator names while dragging. */
  function Preview(tabCount: nat, current: int, isDragging: bool, dragOffset: real): (r: Option<nat>)
    requires -1 <= current < tabCount
    ensures r.Some? ==> r.value < tabCount && isDragging && Abs(dragOffset) > PREVIEW_THRESHOLD
  {
    if isDragging && Abs(dragOffset) > PREVIEW_THRESHOLD then
      if dragOffset > 0.0 && current > 0 then Some(current - 1)
      else if dragOffset < 0.0 && current < tabCount - 1 then Some(current + 1)
      else None
    else None
  }

  /** The indicator does not promise what the release would not do: a drag
      released where it is previewed, beyond the swipe threshold, goes to
      the previewed tab, and one that would change tabs was previewed. */
  lemma PreviewAgreesWithRelease(tabCount: nat, current: int, offsetX: real, velocityX: real)
    requires -1 <= current < tabCount
    ensures Abs(offsetX) > SWIPE_THRESHOLD ==> TabAfterDragEnd(tabCount, current, offsetX, velocityX) == Preview(tabCount, current, true, offsetX)
    ensures TabAfterDragEnd(tabCount, current, offsetX, velocityX).Some? && Abs(offsetX) > PREVIEW_THRESHOLD ==>
      Preview(tabCount, current, true, offsetX) == TabAfterDragEnd(tabCount, current, offsetX, velocityX)
  {
  }

  /** The component's drag state. */
  class SwipeNavigator {
    var isDragging: bool
    var dragOffset: real

    constructor ()
      ensures !isDragging && dragOffset == 0.0
    {
      isDragging, dragOffset := false, 0.0;
    }

    /** `handleDragStart`. */
    method DragStart()
      modifies this
      ensures isDragging && dragOffset == old(dragOffset)
    {
      isDragging := true;
    }

    /** `handleDrag`: the content follows the horizontal offset. */
    method Drag(offsetX: real)
      modifies this
      ensures dragOffset == offsetX && isDragging == old(isDragging)
    {
      dragOffset := offsetX;
    }

    /** `handleDragEnd`: the drag is over, and the id of the tab to switch
        to, if any, is handed to `onTabChange`. */
    method DragEnd(tabs: seq<Tab>, activeTab: string, offsetX: real, velocityX: real) returns (change: Option<string>)
      modifies this
      ensures !isDragging && dragOffset == 0.0
      ensures (var next := TabAfterDragEnd(|tabs|, FindIndex(tabs, activeTab), offsetX, velocityX);
               change == if next.Some? then Some(tabs[next.value].id) else None)
    {
      isDragging, dragOffset := false, 0.0;
      var next := TabAfterDragEnd(|tabs|, FindIndex(tabs, activeTab), offsetX, velocityX);
      change := if next.Some? then Some(tabs[next.value].id) else None;
    }
  }
}

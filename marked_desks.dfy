/** The marked-desks badge of a search result (`MarkedDesksInfo`): which desks
    an item is marked for, whether the bell shows, and the open/closed state
    of its menu. */
module MarkedDesks {
  import opened Common

  datatype MarkedDesk = MarkedDesk(deskId: string)

  datatype ArchiveItem = ArchiveItem(markedDesks: Option<seq<MarkedDesk>>)

  /** A search result; `oid` stands for the object's identity. */
  datatype Item = Item(oid: nat, archiveItem: Option<ArchiveItem>, markedDesks: Option<seq<MarkedDesk>>)

  /** The archived copy lists at least one marked desk. */
  predicate ArchiveMarked(item: Item)
  {
    item.archiveItem.Some? && item.archiveItem.value.markedDesks.Some? && |item.archiveItem.value.markedDesks.value| > 0
  }

  /** `getMarkedDesks()`; `checkAllowed` is what `isCheckAllowed(item)`
      answers. */
  function GetMarkedDesks(item: Item, checkAllowed: bool): (r: seq<MarkedDesk>)
    ensures !checkAllowed ==> r == []
    ensures checkAllowed && ArchiveMarked(item) ==> r == item.archiveItem.value.markedDesks.value
    ensures checkAllowed && !ArchiveMarked(item) ==> r == if item.markedDesks.Some? then item.markedDesks.value else []
  {
    if !checkAllowed then []
    else if ArchiveMarked(item) then item.archiveItem.value.markedDesks.value
    else if item.markedDesks.Some? then item.markedDesks.value
    else []
  }

  /** The bell is drawn when the list is not empty. */
  predicate BellShown(item: Item, checkAllowed: bool)
  {
    |GetMarkedDesks(item, checkAllowed)| > 0
  }

  /** The bell shows exactly when the check is allowed and the archived copy
      or the item itself lists a marked desk. */
  lemma BellShownWhen(item: Item, checkAllowed: bool)
    ensures BellShown(item, checkAllowed) <==>
            checkAllowed && (ArchiveMarked(item) || (item.markedDesks.Some? && |item.markedDesks.value| > 0))
  {
  }

  /** The component: its `item` prop and its `isActionMenuOpen` state. */
  datatype Component = Component(item: Item, isActionMenuOpen: bool)

  /** What a transition does besides changing the state: whether every open
      actions menu is closed, and the desks of the dropdown it renders, if
      it renders one. */
  datatype Step = Step(state: Component, closeMenus: bool, dropdown: Option<seq<MarkedDesk>>)

  /** The constructor: the menu starts closed. */
  function Mount(item: Item): (r: Component)
    ensures r.item == item && !r.isActionMenuOpen
  {
    Component(item, false)
  }

  /** `toggle()`: close the other menus, render the dropdown of marked
      desks, and mark the menu open. */
  function Toggle(c: Component, checkAllowed: bool): (r: Step)
    ensures r.state.item == c.item && r.state.isActionMenuOpen
    ensures r.closeMenus
    ensures r.dropdown == Some(GetMarkedDesks(c.item, checkAllowed))
  {
    Step(c.(isActionMenuOpen := true), true, Some(GetMarkedDesks(c.item, checkAllowed)))
  }

  /** `setActionMenuState(value)`, which the dropdown calls when it closes. */
  function SetActionMenuState(c: Component, value: bool): (r: Component)
    ensures r.item == c.item && r.isActionMenuOpen == value
  {
    c.(isActionMenuOpen := value)
  }

  /** `componentWillReceiveProps(nextProps)` followed by the new props: an
      open menu is closed, with every other actions menu, when a different
      item arrives. */
  function ReceiveProps(c: Component, next: Item): (r: Step)
    ensures r.state.item == next && r.dropdown == None
    ensures r.state.isActionMenuOpen <==> c.isActionMenuOpen && next.oid == c.item.oid
    ensures r.closeMenus <==> c.isActionMenuOpen && next.oid != c.item.oid
  {
    if c.isActionMenuOpen && next.oid != c.item.oid then Step(Component(next, false), true, None)
    else Step(c.(item := next), false, None)
  }

  /** `componentWillUnmount()`: whether the actions menus are closed, which
      happens exactly when this menu is open. */
  function UnmountClosesMenus(c: Component): (r: bool)
    ensures r <==> c.isActionMenuOpen
  {
    c.isActionMenuOpen
  }

  /** A menu opened by `toggle` closes the menus when the component goes
      away, and one closed through `setActionMenuState(false)` does not. */
  lemma ToggleThenUnmount(c: Component, checkAllowed: bool)
    ensures UnmountClosesMenus(Toggle(c, checkAllowed).state)
    ensures !UnmountClosesMenus(SetActionMenuState(Toggle(c, checkAllowed).state, false))
  {
  }

  /** The same item arriving again changes nothing. */
  lemma SameItemKeepsMenu(c: Component)
    ensures ReceiveProps(c, c.item) == Step(c, false, None)
  {
  }

  /** A menu opened by `toggle` stays open while the same item comes back,
      and is closed (with the other menus) when another one arrives. */
  lemma ToggleThenReceive(c: Component, checkAllowed: bool, next: Item)
    ensures var after := ReceiveProps(Toggle(c, checkAllowed).state, next);
            (after.state.isActionMenuOpen <==> next.oid == c.item.oid)
            && (after.closeMenus <==> next.oid != c.item.oid)
  {
  }

  /** Only `toggle` opens the menu: a closed menu stays closed through new
      props, and is left alone when the component goes away. */
  lemma ClosedMenuStaysClosed(c: Component, next: Item)
    requires !c.isActionMenuOpen
    ensures !ReceiveProps(c, next).state.isActionMenuOpen && !ReceiveProps(c, next).closeMenus
    ensures !UnmountClosesMenus(c)
  {
  }
}

/**
 * The cashier's checkout panel: a navigation bar of three menu items, the
 * selected item, a collapsed flag, and an "operation in progress" flag that
 * makes leaving the current item ask for confirmation first.
 */
module CheckoutPanel {
  import opened Common

  /** A navigation bar entry; its icon is left out. */
  datatype MenuItem = MenuItem(key: string, title: string)

  const NavbarMenuItems: seq<MenuItem> := [
    MenuItem("1", "Tính tiền cho khách"),
    MenuItem("2", "Yêu cầu nhập hàng"),
    MenuItem("3", "Lịch sử giao dịch")
  ]

  /** `items.find(item => item.key === key)`: the first item with that key, `None` for `undefined`. */
  function FindByKey(items: seq<MenuItem>, key: string): (r: Option<MenuItem>)
    ensures r.None? <==> forall i :: 0 <= i < |items| ==> items[i].key != key
    ensures r.Some? ==> exists i :: 0 <= i < |items| && items[i] == r.value && r.value.key == key &&
                                    forall j :: 0 <= j < i ==> items[j].key != key
  {
    if items == [] then None
    else if items[0].key == key then Some(items[0])
    else
      var r := FindByKey(items[1..], key);
      assert forall i :: 1 <= i < |items| ==> items[i] == items[1..][i - 1];
      r
  }

  /** The selection is one of the navigation bar's own items. */
  predicate SelectionFromMenu(selected: Option<MenuItem>)
  {
    selected.Some? && selected.value in NavbarMenuItems
  }

  /** Every key the menu renders selects the item carrying it. */
  lemma MenuKeysSelectTheirItem(key: string)
    requires key in {"1", "2", "3"}
    ensures FindByKey(NavbarMenuItems, key).Some?
    ensures FindByKey(NavbarMenuItems, key).value.key == key
    ensures SelectionFromMenu(FindByKey(NavbarMenuItems, key))
  {
    assert NavbarMenuItems[0].key == "1" && NavbarMenuItems[1].key == "2" && NavbarMenuItems[2].key == "3";
  }

  /** A key the menu does not render finds no item: the selection becomes `undefined`. */
  lemma {:induction false} ForeignKeyFindsNothing(key: string)
    requires key !in {"1", "2", "3"}
    ensures FindByKey(NavbarMenuItems, key).None?
  {
    assert NavbarMenuItems[0].key == "1" && NavbarMenuItems[1].key == "2" && NavbarMenuItems[2].key == "3";
  }

  class Panel {
    var collapsed: bool
    /** `None` stands for the `undefined` a failed `find` leaves behind. */
    var selectedMenuItem: Option<MenuItem>
    var onWorking: bool

    constructor ()
      ensures !collapsed && selectedMenuItem == Some(MenuItem("1", "Tính tiền cho khách")) && !onWorking
      ensures SelectionFromMenu(selectedMenuItem)
    {
      collapsed := false;
      selectedMenuItem := Some(NavbarMenuItems[0]);
      onWorking := false;
    }

    method ToggleCollapsed()
      modifies this
      ensures collapsed == !old(collapsed)
      ensures selectedMenuItem == old(selectedMenuItem) && onWorking == old(onWorking)
    {
      collapsed := !collapsed;
    }

    /**
     * A click on the menu entry `key`. While an operation is in progress the
     * user is asked first; `confirmed` is their answer (the dialog has no
     * cancel handler, so declining does nothing). With no item selected,
     * reading its key throws and nothing changes.
     */
    method HandleSelectMenuItem(key: string, confirmed: bool)
      modifies this
      ensures collapsed == old(collapsed)
      ensures old(selectedMenuItem).None? ==> unchanged(this)
      ensures old(selectedMenuItem).Some? && key == old(selectedMenuItem).value.key ==> unchanged(this)
      ensures old(selectedMenuItem).Some? && key != old(selectedMenuItem).value.key && !old(onWorking) ==>
                selectedMenuItem == FindByKey(NavbarMenuItems, key) && !onWorking
      ensures old(selectedMenuItem).Some? && key != old(selectedMenuItem).value.key && old(onWorking) && confirmed ==>
                selectedMenuItem == FindByKey(NavbarMenuItems, key) && !onWorking
      ensures old(selectedMenuItem).Some? && key != old(selectedMenuItem).value.key && old(onWorking) && !confirmed ==>
                unchanged(this)
      ensures key in {"1", "2", "3"} && old(SelectionFromMenu(selectedMenuItem)) ==> SelectionFromMenu(selectedMenuItem)
    {
      if selectedMenuItem.None? {
        return;
      }
      if key == selectedMenuItem.value.key {
        return;
      }
      if key in {"1", "2", "3"} {
        MenuKeysSelectTheirItem(key);
      }
      if !onWorking {
        selectedMenuItem := FindByKey(NavbarMenuItems, key);
        return;
      }
      if confirmed {
        selectedMenuItem, onWorking := FindByKey(NavbarMenuItems, key), false;
      }
    }

    method SetOnWorking(working: bool)
      modifies this
      ensures onWorking == working
      ensures collapsed == old(collapsed) && selectedMenuItem == old(selectedMenuItem)
    {
      onWorking := working;
    }

    /** Toggling twice gives back the state it started from. */
    method ToggleCollapsedTwice()
      modifies this
      ensures collapsed == old(collapsed) && selectedMenuItem == old(selectedMenuItem) && onWorking == old(onWorking)
    {
      ToggleCollapsed();
      ToggleCollapsed();
    }
  }
}

/** The custom dropdown: a controlled `value` owned by the caller, and an `open` flag
    owned by the dropdown itself. */
module Select {
  import opened Wrappers
  import opened Text

  /** One dropdown instance; only `open` is its own state. */
  class Dropdown {
    var open: bool

    /** A dropdown starts closed. */
    constructor ()
      ensures !open
    {
      open := false;
    }

    /** Activating the trigger flips `open`. */
    method Trigger()
      modifies this
      ensures open == !old(open)
    {
      open := !open;
    }

    /** The content: the item list while open, nothing at all while closed. */
    function Content<T>(items: seq<T>): (shown: Option<seq<T>>)
      reads this
      ensures shown.Some? <==> open
      ensures shown.Some? ==> shown.value == items
    {
      if open then Some(items) else None
    }

    /** Clicking an item (which exists only while the content is shown) reports that
        item's value to the value-change callback, once, and closes the dropdown. */
    method ClickItem(value: string) returns (reported: string)
      requires open
      modifies this
      ensures reported == value
      ensures !open
    {
      reported := value;
      open := false;
    }
  }

  /** An item is marked as selected when its value is the dropdown's current value. */
  predicate IsSelected(current: string, item: string)
  {
    current == item
  }

  /** Items carry distinct values (they are keyed by value), so no two items are marked,
      and an item is marked exactly when the current value is among the items. */
  lemma MarkedAtMostOnce(current: string, items: seq<string>)
    requires forall p, q :: 0 <= p < q < |items| ==> items[p] != items[q]
    ensures forall i, j :: 0 <= i < j < |items| ==>
      !(IsSelected(current, items[i]) && IsSelected(current, items[j]))
    ensures (exists i :: 0 <= i < |items| && IsSelected(current, items[i])) <==> current in items
  {
  }

  /** The trigger's label: the current value when there is one, the placeholder when
      the value is empty. */
  function DisplayedValue(value: string, placeholder: string): (shown: string)
    ensures value != "" ==> shown == value
    ensures value == "" ==> shown == placeholder
  {
    OrElse(value, placeholder)
  }
}

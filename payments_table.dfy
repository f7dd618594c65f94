/** The payments table (`components/payments/PaymentsTable.tsx`): its expanded rows, the
    selection it shares with the page, and the values its cells and actions use. */
module PaymentsTable {
  import opened Common
  import opened Text
  import opened Entities
  import opened PaymentsHelpers
  import opened IdSets

  /** The ids of the rows on the current page. */
  function IdsOf(data: seq<Payment>): (ids: set<int>)
    ensures forall id :: id in ids <==> exists i :: 0 <= i < |data| && data[i].id == id
  {
    set i | 0 <= i < |data| :: data[i].id
  }

  /** The table's state: `expanded` is its own, `selected` is the page's selection, which
      the table replaces through `setSelected`. */
  class Table {
    var expanded: set<int>
    var selected: set<int>

    /** Nothing expanded and nothing selected. */
    constructor()
      ensures expanded == {} && selected == {}
    {
      expanded := {};
      selected := {};
    }

    /** `toggleExpanded(id)`: copy the set, delete `id` if present, add it otherwise. */
    method ToggleExpanded(id: int)
      modifies this
      ensures expanded == Toggled(old(expanded), id)
      ensures selected == old(selected)
    {
      var next := expanded;
      if id in next {
        next := next - {id};
      } else {
        next := next + {id};
      }
      expanded := next;
    }

    /** The header checkbox: ticked selects exactly the ids of the current page (not the
      whole filtered list), unticked empties the selection. */
    method SelectAll(checked: bool, data: seq<Payment>)
      modifies this
      ensures checked ==> selected == IdsOf(data)
      ensures !checked ==> selected == {}
      ensures expanded == old(expanded)
    {
      if checked {
        selected := IdsOf(data);
      } else {
        selected := {};
      }
    }

    /** A row checkbox: copy the selection, add or delete that row's id. */
    method SelectRow(id: int, checked: bool)
      modifies this
      ensures selected == Checked(old(selected), id, checked)
      ensures expanded == old(expanded)
    {
      var copy := selected;
      if checked {
        copy := copy + {id};
      } else {
        copy := copy - {id};
      }
      selected := copy;
    }

    /** Whether row `id` shows its detail line. */
    predicate IsExpanded(id: int)
      reads this
    {
      id in expanded
    }
  }

  /** The archive action's argument: the negation of the payment's archived test. */
  function ArchiveToggleArg(p: Payment): (archived: bool)
    ensures archived <==> !IsPaymentArchived(p)
  {
    !IsPaymentArchived(p)
  }
}

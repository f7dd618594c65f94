/** The `Set<ID>` updates the tables make: copy the set, then `add` or `delete` one id. */
module IdSets {

  /** `next.has(id) ? next.delete(id) : next.add(id)` on a copy: `id` changes membership,
      every other id keeps its own. */
  function Toggled(s: set<int>, id: int): (r: set<int>)
    ensures id in r <==> id !in s
    ensures forall x :: x != id ==> (x in r <==> x in s)
  {
    if id in s then s - {id} else s + {id}
  }

  /** Toggling the same id twice gives back the set. */
  lemma ToggleTwice(s: set<int>, id: int)
    ensures Toggled(Toggled(s, id), id) == s
  {
    var t := Toggled(Toggled(s, id), id);
    assert forall x :: x in t <==> x in s;
  }

  /** Toggles of two ids can be made in either order. */
  lemma TogglesCommute(s: set<int>, a: int, b: int)
    ensures Toggled(Toggled(s, a), b) == Toggled(Toggled(s, b), a)
  {
    var l, r := Toggled(Toggled(s, a), b), Toggled(Toggled(s, b), a);
    assert forall x :: x in l <==> x in r;
  }

  /** A checkbox on a copy: `checked ? copy.add(id) : copy.delete(id)`. Only `id` can change. */
  function Checked(s: set<int>, id: int, checked: bool): (r: set<int>)
    ensures id in r <==> checked
    ensures forall x :: x != id ==> (x in r <==> x in s)
  {
    if checked then s + {id} else s - {id}
  }

  /** Ticking an unticked box is a toggle, and so is unticking a ticked one. */
  lemma CheckedIsToggle(s: set<int>, id: int)
    ensures Checked(s, id, id !in s) == Toggled(s, id)
  {
  }
}

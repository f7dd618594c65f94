/** `[...list].sort(cmp)`: the stable sort that `Array.prototype.sort` is
    required to be since ES2019. The model is an insertion sort over a
    "comes no later than" relation `le`; each comparator of the dashboard
    (`a.x - b.x`, `b.x - a.x`, `a.s.localeCompare(b.s)`) is such a relation. */
module StableSort {
  import opened Common

  /** `le` orders every pair and is transitive: what a consistent comparator gives. */
  ghost predicate TotalPreorder<T(!new)>(le: (T, T) -> bool) {
    && (forall x, y :: le(x, y) || le(y, x))
    && (forall x, y, z :: le(x, y) && le(y, z) ==> le(x, z))
  }

  /** Two elements tie: the comparator returns 0 for them. */
  predicate Equiv<T>(le: (T, T) -> bool, a: T, b: T) {
    le(a, b) && le(b, a)
  }

  predicate SortedBy<T>(s: seq<T>, le: (T, T) -> bool) {
    forall i, j :: 0 <= i < j < |s| ==> le(s[i], s[j])
  }

  /** The elements of `s` that tie with `x`, in their order in `s`. A sort is
      stable when it leaves this sub-sequence unchanged for every `x`. */
  function ClassOf<T>(s: seq<T>, le: (T, T) -> bool, x: T): seq<T> {
    Filter(s, Ties(le, x))
  }

  /** The test "ties with `x`", as one named function value. */
  function Ties<T>(le: (T, T) -> bool, x: T): T -> bool {
    y => Equiv(le, y, x)
  }

  /** Inserts `x`, which preceded every element of `s` in the input, before the
      first element it does not come after. */
  function Insert<T>(x: T, s: seq<T>, le: (T, T) -> bool): (r: seq<T>)
    ensures |r| == |s| + 1
  {
    if s == [] then [x]
    else if le(x, s[0]) then [x] + s
    else [s[0]] + Insert(x, s[1..], le)
  }

  /** Inserting adds exactly `x` to the elements. */
  lemma {:induction false} InsertMultiset<T>(x: T, s: seq<T>, le: (T, T) -> bool)
    ensures multiset(Insert(x, s, le)) == multiset(s) + multiset{x}
  {
    if s == [] {
      assert Insert(x, s, le) == [x];
    } else if le(x, s[0]) {
      assert Insert(x, s, le) == [x] + s;
    } else {
      var t := Insert(x, s[1..], le);
      InsertMultiset(x, s[1..], le);
      assert Insert(x, s, le) == [s[0]] + t;
      assert s == [s[0]] + s[1..];
      assert multiset(s) == multiset{s[0]} + multiset(s[1..]);
      assert multiset([s[0]] + t) == multiset{s[0]} + multiset(t);
    }
  }

  function Sort<T>(s: seq<T>, le: (T, T) -> bool): (r: seq<T>)
    ensures multiset(r) == multiset(s)
    ensures |r| == |s|
  {
    if s == [] then []
    else
      assert s == [s[0]] + s[1..];
      InsertMultiset(s[0], Sort(s[1..], le), le);
      Insert(s[0], Sort(s[1..], le), le)
  }

  lemma {:induction false} InsertSorted<T(!new)>(x: T, s: seq<T>, le: (T, T) -> bool)
    requires TotalPreorder(le)
    requires SortedBy(s, le)
    ensures SortedBy(Insert(x, s, le), le)
  {
    if s == [] {
      assert Insert(x, s, le) == [x];
    } else if le(x, s[0]) {
      var r := [x] + s;
      assert r == Insert(x, s, le);
      forall i, j | 0 <= i < j < |r|
        ensures le(r[i], r[j])
      {
        if i == 0 {
          assert r[j] == s[j - 1];
          if j > 1 {
            assert le(s[0], s[j - 1]);
          }
        } else {
          assert r[i] == s[i - 1] && r[j] == s[j - 1];
        }
      }
    } else {
      var t := Insert(x, s[1..], le);
      InsertSorted(x, s[1..], le);
      InsertLowerBound(s[0], x, s[1..], le);
      var r := [s[0]] + t;
      assert r == Insert(x, s, le);
      forall i, j | 0 <= i < j < |r|
        ensures le(r[i], r[j])
      {
        if i == 0 {
          assert r[j] == t[j - 1];
        } else {
          assert r[i] == t[i - 1] && r[j] == t[j - 1];
        }
      }
    }
  }

  /** A lower bound of `x` and of every element of `s` is a lower bound of every element
      of `Insert(x, s, le)`. */
  lemma {:induction false} InsertLowerBound<T>(b: T, x: T, s: seq<T>, le: (T, T) -> bool)
    requires le(b, x)
    requires forall k :: 0 <= k < |s| ==> le(b, s[k])
    ensures forall k :: 0 <= k < |Insert(x, s, le)| ==> le(b, Insert(x, s, le)[k])
  {
    var r := Insert(x, s, le);
    if s == [] {
      assert r == [x];
    } else if le(x, s[0]) {
      assert r == [x] + s;
      forall k | 0 <= k < |r|
        ensures le(b, r[k])
      {
        if k > 0 {
          assert r[k] == s[k - 1];
        }
      }
    } else {
      var t := Insert(x, s[1..], le);
      InsertLowerBound(b, x, s[1..], le);
      assert r == [s[0]] + t;
      forall k | 0 <= k < |r|
        ensures le(b, r[k])
      {
        if k > 0 {
          assert r[k] == t[k - 1];
        }
      }
    }
  }

  /** The sort's output is ordered by `le`. */
  lemma {:induction false} SortSorted<T(!new)>(s: seq<T>, le: (T, T) -> bool)
    requires TotalPreorder(le)
    ensures SortedBy(Sort(s, le), le)
  {
    if s != [] {
      SortSorted(s[1..], le);
      InsertSorted(s[0], Sort(s[1..], le), le);
    }
  }

  /** Inserting `y` puts it ahead of the elements tying with `x`, provided `y`, when it
      ties with `x` itself, comes no later than any of them. */
  lemma {:induction false} InsertClass<T>(y: T, t: seq<T>, le: (T, T) -> bool, x: T)
    requires forall z :: Equiv(le, z, x) && Equiv(le, y, x) ==> le(y, z)
    ensures ClassOf(Insert(y, t, le), le, x) == (if Equiv(le, y, x) then [y] else []) + ClassOf(t, le, x)
  {
    if t == [] {
      assert Insert(y, t, le) == [y] + t;
      ClassCons(y, t, le, x);
    } else if le(y, t[0]) {
      assert Insert(y, t, le) == [y] + t;
      ClassCons(y, t, le, x);
    } else {
      InsertClass(y, t[1..], le, x);
      if Equiv(le, y, x) {
        assert !Equiv(le, t[0], x);
      }
      InsertClassStep(y, t, le, x);
    }
  }

  /** One step of `InsertClass`: `y` passing over `t[0]`, which does not tie with `x`
      when `y` does. */
  lemma InsertClassStep<T>(y: T, t: seq<T>, le: (T, T) -> bool, x: T)
    requires t != [] && !le(y, t[0])
    requires Equiv(le, y, x) ==> !Equiv(le, t[0], x)
    requires ClassOf(Insert(y, t[1..], le), le, x) == (if Equiv(le, y, x) then [y] else []) + ClassOf(t[1..], le, x)
    ensures ClassOf(Insert(y, t, le), le, x) == (if Equiv(le, y, x) then [y] else []) + ClassOf(t, le, x)
  {
    var ins := Insert(y, t[1..], le);
    var c1 := ClassOf(t[1..], le, x);
    InsertAfterHead(y, t, le);
    ClassCons(t[0], ins, le, x);
    assert [t[0]] + t[1..] == t;
    ClassCons(t[0], t[1..], le, x);
    if Equiv(le, t[0], x) {
      assert ClassOf(ins, le, x) == c1;
      assert ClassOf(t, le, x) == [t[0]] + c1;
    } else {
      assert ClassOf(t, le, x) == c1;
    }
  }

  /** Stability: elements that tie keep their input order. */
  lemma {:induction false} SortStable<T(!new)>(s: seq<T>, le: (T, T) -> bool, x: T)
    requires TotalPreorder(le)
    ensures ClassOf(Sort(s, le), le, x) == ClassOf(s, le, x)
  {
    if s != [] {
      SortStable(s[1..], le, x);
      forall z | Equiv(le, z, x) && Equiv(le, s[0], x)
        ensures le(s[0], z)
      {
        assert le(s[0], x) && le(x, z);
      }
      InsertClass(s[0], Sort(s[1..], le), le, x);
      FilterAppend([s[0]], s[1..], Ties(le, x));
      assert [s[0]] + s[1..] == s;
    }
  }

  /** An already ordered list is left as it is. */
  lemma {:induction false} SortOfSorted<T>(s: seq<T>, le: (T, T) -> bool)
    requires SortedBy(s, le)
    ensures Sort(s, le) == s
  {
    if s != [] {
      assert SortedBy(s[1..], le);
      SortOfSorted(s[1..], le);
      if |s| > 1 {
        assert le(s[0], s[1]);
      }
      assert [s[0]] + s[1..] == s;
    }
  }

  /** Sorting the same list twice by the same key gives the same output as sorting once. */
  lemma SortIdempotent<T(!new)>(s: seq<T>, le: (T, T) -> bool)
    requires TotalPreorder(le)
    ensures Sort(Sort(s, le), le) == Sort(s, le)
  {
    SortSorted(s, le);
    SortOfSorted(Sort(s, le), le);
  }

  /** Everything stated above about one sort: the output is a permutation of the
      input, ordered by `le`, and stable. */
  lemma SortSpec<T(!new)>(s: seq<T>, le: (T, T) -> bool)
    requires TotalPreorder(le)
    ensures multiset(Sort(s, le)) == multiset(s)
    ensures SortedBy(Sort(s, le), le)
    ensures forall x :: ClassOf(Sort(s, le), le, x) == ClassOf(s, le, x)
  {
    SortSorted(s, le);
    forall x ensures ClassOf(Sort(s, le), le, x) == ClassOf(s, le, x) {
      SortStable(s, le, x);
    }
  }

  // ---------------------------------------------------------------------------
  // Uniqueness: a sorted, stable rearrangement is determined by its input, so the
  // insertion sort above yields exactly what any conforming `Array.prototype.sort` yields.

  lemma ClassOfEquiv<T(!new)>(s: seq<T>, le: (T, T) -> bool, x: T, y: T)
    requires TotalPreorder(le)
    requires Equiv(le, x, y)
    ensures ClassOf(s, le, x) == ClassOf(s, le, y)
  {
    FilterExt(s, Ties(le, x), Ties(le, y));
  }

  /** Every element belongs to its own tie class. */
  lemma ClassOfSelf<T(!new)>(t: seq<T>, le: (T, T) -> bool, i: nat)
    requires TotalPreorder(le)
    requires i < |t|
    ensures t[i] in ClassOf(t, le, t[i])
  {
    assert Equiv(le, t[i], t[i]);
  }

  /** The index of the first element of `t` that ties with `x`, or `|t|`. */
  function FirstTie<T>(t: seq<T>, le: (T, T) -> bool, x: T): (k: nat)
    ensures k <= |t|
    ensures forall j :: 0 <= j < k ==> !Equiv(le, t[j], x)
    ensures k < |t| ==> Equiv(le, t[k], x)
  {
    if t == [] then 0
    else if Equiv(le, t[0], x) then 0
    else 1 + FirstTie(t[1..], le, x)
  }

  /** Where `Insert` places `x`: after the elements it does not come before. */
  lemma {:induction false} InsertAt<T>(x: T, t: seq<T>, le: (T, T) -> bool, k: nat)
    requires k <= |t|
    requires forall j :: 0 <= j < k ==> !le(x, t[j])
    requires k < |t| ==> le(x, t[k])
    ensures Insert(x, t, le) == t[..k] + [x] + t[k..]
  {
    if k == 0 {
      assert t[..0] + [x] + t[0..] == [x] + t;
    } else {
      InsertAfterHead(x, t, le);
      InsertAt(x, t[1..], le, k - 1);
      ShiftSplit(x, t, k);
    }
  }

  lemma InsertAfterHead<T>(x: T, t: seq<T>, le: (T, T) -> bool)
    requires t != [] && !le(x, t[0])
    ensures Insert(x, t, le) == [t[0]] + Insert(x, t[1..], le)
  {
  }

  lemma ShiftSplit<T>(x: T, t: seq<T>, k: nat)
    requires 0 < k <= |t|
    ensures [t[0]] + (t[1..][..k - 1] + [x] + t[1..][k - 1..]) == t[..k] + [x] + t[k..]
  {
    assert t[..k] == [t[0]] + t[1..][..k - 1];
    assert t[k..] == t[1..][k - 1..];
  }

  /** Removing one element of an ordered list leaves it ordered. */
  lemma RemoveSorted<T>(t: seq<T>, le: (T, T) -> bool, k: nat)
    requires k < |t|
    requires SortedBy(t, le)
    ensures SortedBy(t[..k] + t[k + 1..], le)
  {
    var t' := t[..k] + t[k + 1..];
    forall i, j | 0 <= i < j < |t'|
      ensures le(t'[i], t'[j])
    {
      var i' := if i < k then i else i + 1;
      var j' := if j < k then j else j + 1;
      assert t'[i] == t[i'] && t'[j] == t[j'];
    }
  }

  /** The tie class of `y` in `a + [m] + b` splits around `m`. */
  lemma ClassAround<T>(a: seq<T>, m: T, b: seq<T>, le: (T, T) -> bool, y: T)
    ensures Equiv(le, m, y) ==> ClassOf(a + [m] + b, le, y) == ClassOf(a, le, y) + [m] + ClassOf(b, le, y)
    ensures !Equiv(le, m, y) ==> ClassOf(a + [m] + b, le, y) == ClassOf(a, le, y) + ClassOf(b, le, y)
  {
    assert a + [m] + b == a + ([m] + b);
    FilterAppend(a, [m] + b, Ties(le, y));
    ClassCons(m, b, le, y);
  }

  lemma ClassCons<T>(m: T, b: seq<T>, le: (T, T) -> bool, y: T)
    ensures Equiv(le, m, y) ==> ClassOf([m] + b, le, y) == [m] + ClassOf(b, le, y)
    ensures !Equiv(le, m, y) ==> ClassOf([m] + b, le, y) == ClassOf(b, le, y)
  {
    assert ([m] + b)[0] == m;
    assert ([m] + b)[1..] == b;
  }

  /** No element before the first tie with `x` ties with `x`. */
  lemma {:induction false} NoTieBeforeFirst<T>(t: seq<T>, le: (T, T) -> bool, x: T)
    ensures ClassOf(t[..FirstTie(t, le, x)], le, x) == []
  {
    if t != [] && !Equiv(le, t[0], x) {
      NoTieBeforeFirst(t[1..], le, x);
      var k := FirstTie(t, le, x);
      assert t[..k] == [t[0]] + t[1..][..k - 1];
      ClassCons(t[0], t[1..][..k - 1], le, x);
    }
  }

  /** The first element of `t` that ties with `x` heads `x`'s tie class in `t`. */
  lemma FirstTieHeadsClass<T>(t: seq<T>, le: (T, T) -> bool, x: T, k: nat)
    requires k == FirstTie(t, le, x) && k < |t|
    ensures ClassOf(t, le, x) != [] && ClassOf(t, le, x)[0] == t[k]
  {
    NoTieBeforeFirst(t, le, x);
    assert t == t[..k] + [t[k]] + t[k + 1..];
    ClassAround(t[..k], t[k], t[k + 1..], le, x);
  }

  /** With no element tying with `x`, `x`'s tie class in `t` is empty. */
  lemma NoTieNoClass<T>(t: seq<T>, le: (T, T) -> bool, x: T)
    requires FirstTie(t, le, x) == |t|
    ensures ClassOf(t, le, x) == []
  {
    NoTieBeforeFirst(t, le, x);
    assert t[..|t|] == t;
  }

  /** In an ordered rearrangement `t` of `s`, the first element tying with `s[0]` is `s[0]`
      itself, and no earlier element ties with it. */
  lemma HeadPlacement<T(!new)>(s: seq<T>, t: seq<T>, le: (T, T) -> bool) returns (k: nat)
    requires s != [] && Equiv(le, s[0], s[0])
    requires forall x :: ClassOf(t, le, x) == ClassOf(s, le, x)
    ensures k < |t| && t[k] == s[0]
    ensures forall j :: 0 <= j < k ==> !Equiv(le, t[j], s[0])
    ensures ClassOf(t[..k], le, s[0]) == []
  {
    var x := s[0];
    assert s == [x] + s[1..];
    ClassCons(x, s[1..], le, x);
    k := FirstTie(t, le, x);
    assert ClassOf(t, le, x) == ClassOf(s, le, x);
    if k == |t| {
      NoTieNoClass(t, le, x);
      assert false;
    }
    NoTieBeforeFirst(t, le, x);
    FirstTieHeadsClass(t, le, x, k);
  }

  /** Removing `s[0]` from `t` matches removing it from `s`, tie class by tie class. */
  lemma RemoveClasses<T>(s: seq<T>, t: seq<T>, le: (T, T) -> bool, k: nat, y: T)
    requires s != [] && k < |t| && t[k] == s[0]
    requires Equiv(le, s[0], y) ==> ClassOf(t[..k], le, y) == []
    requires ClassOf(t, le, y) == ClassOf(s, le, y)
    ensures ClassOf(t[..k] + t[k + 1..], le, y) == ClassOf(s[1..], le, y)
  {
    var x := s[0];
    assert s == [x] + s[1..];
    assert t == t[..k] + [x] + t[k + 1..];
    ClassCons(x, s[1..], le, y);
    ClassAround(t[..k], x, t[k + 1..], le, y);
    FilterAppend(t[..k], t[k + 1..], Ties(le, y));
    if Equiv(le, x, y) {
      var b, c := ClassOf(t[k + 1..], le, y), ClassOf(s[1..], le, y);
      assert [x] + b == [x] + c;
      assert b == ([x] + b)[1..];
    }
  }

  /** A sorted, stable rearrangement of `s` is `Sort(s, le)`: the sort is determined by
      the comparator, whichever stable algorithm computes it. */
  lemma {:induction false} SortUnique<T(!new)>(s: seq<T>, t: seq<T>, le: (T, T) -> bool)
    requires TotalPreorder(le)
    requires SortedBy(t, le)
    requires forall x :: ClassOf(t, le, x) == ClassOf(s, le, x)
    ensures t == Sort(s, le)
    decreases |s|
  {
    if s == [] {
      if t != [] {
        ClassOfSelf(t, le, 0);
        assert false;
      }
    } else {
      var x := s[0];
      assert Equiv(le, x, x);
      var k := HeadPlacement(s, t, le);
      var t' := t[..k] + t[k + 1..];
      RemoveSorted(t, le, k);
      forall y
        ensures ClassOf(t', le, y) == ClassOf(s[1..], le, y)
      {
        if Equiv(le, x, y) {
          ClassOfEquiv(t[..k], le, x, y);
        }
        RemoveClasses(s, t, le, k, y);
      }
      SortUnique(s[1..], t', le);
      forall j | 0 <= j < k
        ensures !le(x, t'[j])
      {
        assert t'[j] == t[j];
        assert le(t[j], t[k]);
      }
      if k < |t'| {
        assert t'[k] == t[k + 1];
      }
      InsertAt(x, t', le, k);
      assert t'[..k] == t[..k];
      assert t'[k..] == t[k + 1..];
      assert t == t[..k] + [x] + t[k + 1..];
    }
  }
}

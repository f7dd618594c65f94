/** JavaScript value semantics shared by the whole dashboard model:
    optional values, truthiness of the fields the filters test, and
    `Array.prototype.filter` on sequences. */
module Common {

  datatype Option<+T> = None | Some(value: T) {
    function GetOr(default: T): T {
      match this
      case Some(v) => v
      case None => default
    }
  }

  datatype Result<+R, +E> = Ok(value: R) | Err(error: E)

  /** `Boolean(x.archived)` for an optional boolean: only `true` is truthy. */
  predicate Truthy(b: Option<bool>) {
    b == Some(true)
  }

  /** An optional numeric id used as a filter is "set" when it is truthy:
      defined and non-zero. */
  predicate IdSet(id: Option<int>) {
    id.Some? && id.value != 0
  }

  /** An optional string filter is "set" when it is truthy: defined and non-empty. */
  predicate StrSet(s: Option<string>) {
    s.Some? && s.value != ""
  }

  /** `xs.filter(p)`: the order-preserving sub-sequence of the elements satisfying `p`. */
  function Filter<T>(s: seq<T>, p: T -> bool): (r: seq<T>)
    ensures |r| <= |s|
    ensures forall i :: 0 <= i < |r| ==> r[i] in s && p(r[i])
    ensures forall i :: 0 <= i < |s| && p(s[i]) ==> s[i] in r
  {
    if s == [] then []
    else (if p(s[0]) then [s[0]] else []) + Filter(s[1..], p)
  }

  /** `if (c) list = list.filter(p)`: a filter step applied only when its condition holds. */
  function When<T>(c: bool, s: seq<T>, p: T -> bool): seq<T> {
    if c then Filter(s, p) else s
  }

  /** A prefix one element longer is the shorter prefix and that element. */
  lemma TakeSnoc<T>(s: seq<T>, i: int)
    requires 0 <= i < |s|
    ensures s[..i + 1] == s[..i] + [s[i]]
  {
  }

  /** The number of elements satisfying `p`, i.e. `xs.filter(p).length`. */
  function Count<T>(s: seq<T>, p: T -> bool): nat {
    |Filter(s, p)|
  }

  lemma {:induction false} FilterAppend<T>(a: seq<T>, b: seq<T>, p: T -> bool)
    ensures Filter(a + b, p) == Filter(a, p) + Filter(b, p)
  {
    if a == [] {
      assert a + b == b;
    } else {
      assert (a + b)[0] == a[0];
      assert (a + b)[1..] == a[1..] + b;
      FilterAppend(a[1..], b, p);
    }
  }

  /** Filtering keeps each element exactly as often as it occurs, if it passes, and drops it otherwise. */
  lemma {:induction false} FilterMultiset<T>(s: seq<T>, p: T -> bool, x: T)
    ensures multiset(Filter(s, p))[x] == if p(x) then multiset(s)[x] else 0
  {
    if s != [] {
      FilterMultiset(s[1..], p, x);
      assert s == [s[0]] + s[1..];
      assert multiset(s) == multiset([s[0]]) + multiset(s[1..]);
    }
  }

  /** Two filters that agree on the elements of `s` select the same sub-sequence. */
  lemma {:induction false} FilterExt<T>(s: seq<T>, p: T -> bool, q: T -> bool)
    requires forall x :: x in s ==> p(x) == q(x)
    ensures Filter(s, p) == Filter(s, q)
  {
    if s != [] {
      assert s == [s[0]] + s[1..];
      FilterExt(s[1..], p, q);
    }
  }

  /** Successive filters are one filter by the conjunction. */
  lemma {:induction false} FilterFilter<T>(s: seq<T>, p: T -> bool, q: T -> bool)
    ensures Filter(Filter(s, p), q) == Filter(s, x => p(x) && q(x))
  {
    var pq := x => p(x) && q(x);
    if s != [] {
      FilterFilter(s[1..], p, q);
      var rest := Filter(s[1..], p);
      assert Filter(s, pq) == (if pq(s[0]) then [s[0]] else []) + Filter(s[1..], pq);
      if p(s[0]) {
        assert Filter(s, p) == [s[0]] + rest;
        assert ([s[0]] + rest)[1..] == rest;
        assert Filter([s[0]] + rest, q) == (if q(s[0]) then [s[0]] else []) + Filter(rest, q);
      } else {
        assert Filter(s, p) == rest;
      }
    }
  }

  /** The filter steps of a pipeline commute: their order does not change the result. */
  lemma FilterCommutes<T>(s: seq<T>, p: T -> bool, q: T -> bool)
    ensures Filter(Filter(s, p), q) == Filter(Filter(s, q), p)
  {
    FilterFilter(s, p, q);
    FilterFilter(s, q, p);
    FilterExt(s, x => p(x) && q(x), x => q(x) && p(x));
  }

  /** A conditional step is a filter by `!c || p`. */
  lemma WhenIsFilter<T>(c: bool, s: seq<T>, p: T -> bool)
    ensures When(c, s, p) == Filter(s, x => !c || p(x))
  {
    if c {
      FilterExt(s, p, x => !c || p(x));
    } else {
      FilterAll(s, x => !c || p(x));
    }
  }

  /** A conditional step after a filter by `p` is one filter by any `r` that is
      `p` strengthened with the step's test when the step applies. */
  lemma FilterThen<T>(c: bool, s: seq<T>, p: T -> bool, q: T -> bool, r: T -> bool)
    requires forall x :: r(x) == (p(x) && (!c || q(x)))
    ensures When(c, Filter(s, p), q) == Filter(s, r)
  {
    if c {
      FilterFilter(s, p, q);
      FilterExt(s, x => p(x) && q(x), r);
    } else {
      FilterExt(s, p, r);
    }
  }

  /** A filter that every element passes changes nothing. */
  lemma {:induction false} FilterAll<T>(s: seq<T>, p: T -> bool)
    requires forall x :: x in s ==> p(x)
    ensures Filter(s, p) == s
  {
    if s != [] {
      assert s == [s[0]] + s[1..];
      FilterAll(s[1..], p);
    }
  }

  /** A filter that no element passes yields the empty list. */
  lemma {:induction false} FilterNone<T>(s: seq<T>, p: T -> bool)
    requires forall x :: x in s ==> !p(x)
    ensures Filter(s, p) == []
  {
    if s != [] {
      assert s == [s[0]] + s[1..];
      FilterNone(s[1..], p);
    }
  }

  /** Elements passing and elements failing a filter add up to the whole list. */
  lemma {:induction false} CountSplit<T>(s: seq<T>, p: T -> bool)
    ensures Count(s, p) + Count(s, x => !p(x)) == |s|
  {
    if s != [] {
      CountSplit(s[1..], p);
    }
  }

  function Min(a: int, b: int): int {
    if a <= b then a else b
  }

  function Max(a: int, b: int): int {
    if a >= b then a else b
  }
}

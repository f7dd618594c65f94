/** The API client's local rules (`lib/api.ts`): the URL `buildUrl` makes, the query keys
    of the cache, and how `request` classifies a response. The fetch itself is not part of
    this model. A URL is kept as its path and its list of search parameters; the
    serialisation and percent-encoding of `url.toString()` are not modelled. */
module Api {
  import opened Common
  import opened Text

  // ---------------------------------------------------------------------------
  // buildUrl

  /** A query value: `string | number | boolean | undefined` (numbers are integers here). */
  datatype QueryValue = Str(s: string) | Number(n: int) | Bool(b: bool) | Undefined

  /** `String(value)`. */
  function Stringify(v: QueryValue): string {
    match v
    case Str(s) => s
    case Number(n) => IntToString(n)
    case Bool(b) => if b then "true" else "false"
    case Undefined => "undefined"
  }

  /** The optional `id` argument: absent, a number, or a string. */
  datatype IdArg = NoId | NumId(n: int) | StrId(s: string)

  /** A truthy id: a non-zero number or a non-empty string. */
  predicate IdTruthy(id: IdArg) {
    match id
    case NoId => false
    case NumId(n) => n != 0
    case StrId(s) => s != ""
  }

  function IdString(id: IdArg): string {
    match id
    case NoId => "undefined"
    case NumId(n) => IntToString(n)
    case StrId(s) => s
  }

  /** `${base}/${resource}`, followed by `/${id}` exactly when the id is truthy. */
  function Path(base: string, resource: string, id: IdArg): (p: string)
    ensures IdTruthy(id) ==> p == base + "/" + resource + "/" + IdString(id)
    ensures !IdTruthy(id) ==> p == base + "/" + resource
  {
    base + "/" + resource + (if IdTruthy(id) then "/" + IdString(id) else "")
  }

  /** The id 0 is falsy, so it addresses the collection, not a record. */
  lemma ZeroIdAddressesCollection(base: string, resource: string)
    ensures Path(base, resource, NumId(0)) == Path(base, resource, NoId)
  {
  }

  datatype Url = Url(path: string, params: seq<(string, string)>)

  predicate HasKey<V>(ps: seq<(string, V)>, k: string) {
    exists i :: 0 <= i < |ps| && ps[i].0 == k
  }

  /** Each key occurs at most once. */
  predicate UniqueKeys<V>(ps: seq<(string, V)>) {
    forall i, j :: 0 <= i < j < |ps| ==> ps[i].0 != ps[j].0
  }

  /** The tests "has key `k`" and "has another key", as named function values. */
  function KeyIs(k: string): ((string, string)) -> bool {
    (p: (string, string)) => p.0 == k
  }

  function KeyIsNot(k: string): ((string, string)) -> bool {
    (p: (string, string)) => p.0 != k
  }

  /** `searchParams.set(k, v)`: the first pair with key `k` takes the value `v` and every
      later one is removed; with no such pair, `(k, v)` is appended. */
  function SetParam(ps: seq<(string, string)>, k: string, v: string): (r: seq<(string, string)>)
    ensures Filter(r, KeyIsNot(k)) == Filter(ps, KeyIsNot(k))
    ensures Filter(r, KeyIs(k)) == [(k, v)]
  {
    if ps == [] then [(k, v)]
    else if ps[0].0 == k then
      var rest := Filter(ps[1..], KeyIsNot(k));
      FilterAll(rest, KeyIsNot(k));
      FilterNone(rest, KeyIs(k));
      [(k, v)] + rest
    else
      [ps[0]] + SetParam(ps[1..], k, v)
  }

  /** Setting a key that is not there yet appends it. */
  lemma {:induction false} SetParamFresh(ps: seq<(string, string)>, k: string, v: string)
    requires !HasKey(ps, k)
    ensures SetParam(ps, k, v) == ps + [(k, v)]
  {
    if ps != [] {
      assert ps[0].0 != k by {
        assert ps[0].0 == ps[0].0;
      }
      assert !HasKey(ps[1..], k) by {
        forall i | 0 <= i < |ps[1..]|
          ensures ps[1..][i].0 != k
        {
          assert ps[1..][i] == ps[i + 1];
        }
      }
      SetParamFresh(ps[1..], k, v);
      ConsAppend(ps, (k, v));
    }
  }

  lemma ConsAppend<T>(s: seq<T>, x: T)
    requires s != []
    ensures [s[0]] + (s[1..] + [x]) == s + [x]
  {
  }

  /** The search parameters of a query: the entries whose value is not `undefined`, in
      order, each value stringified. */
  function Defined(entries: seq<(string, QueryValue)>): (r: seq<(string, string)>)
    ensures |r| <= |entries|
  {
    if entries == [] then []
    else
      var init := Defined(entries[..|entries| - 1]);
      var (k, v) := entries[|entries| - 1];
      if v.Undefined? then init else init + [(k, Stringify(v))]
  }

  /** Every parameter comes from an entry with a defined value and has that value,
      stringified; no `undefined` entry shows up. */
  lemma {:induction false} DefinedSound(entries: seq<(string, QueryValue)>, k: string, s: string)
    requires (k, s) in Defined(entries)
    ensures exists v :: (k, v) in entries && !v.Undefined? && s == Stringify(v)
  {
    var init := entries[..|entries| - 1];
    var last := entries[|entries| - 1];
    assert entries == init + [last];
    if (k, s) in Defined(init) {
      DefinedSound(init, k, s);
      var v :| (k, v) in init && !v.Undefined? && s == Stringify(v);
      assert (k, v) in entries;
    } else {
      assert last == (k, last.1);
    }
  }

  /** Every entry with a defined value shows up, stringified. */
  lemma {:induction false} DefinedComplete(entries: seq<(string, QueryValue)>, k: string, v: QueryValue)
    requires (k, v) in entries && !v.Undefined?
    ensures (k, Stringify(v)) in Defined(entries)
  {
    var init := entries[..|entries| - 1];
    if entries[|entries| - 1] != (k, v) {
      assert entries == init + [entries[|entries| - 1]];
      DefinedComplete(init, k, v);
    }
  }

  /** Keys that never occur among the entries never occur among the parameters. */
  lemma {:induction false} DefinedKeys(entries: seq<(string, QueryValue)>, k: string)
    ensures HasKey(Defined(entries), k) ==> HasKey(entries, k)
  {
    if entries != [] {
      var init := entries[..|entries| - 1];
      DefinedKeys(init, k);
      var r := Defined(entries);
      if i :| 0 <= i < |r| && r[i].0 == k {
        if i < |Defined(init)| {
          assert Defined(init)[i].0 == k;
          var j :| 0 <= j < |init| && init[j].0 == k;
          assert entries[j].0 == k;
        } else {
          assert entries[|entries| - 1].0 == k;
        }
      }
    }
  }

  /** The entries of a JavaScript object have distinct keys, and so have the parameters. */
  lemma {:induction false} DefinedUnique(entries: seq<(string, QueryValue)>)
    requires UniqueKeys(entries)
    ensures UniqueKeys(Defined(entries))
  {
    if entries != [] {
      var init := entries[..|entries| - 1];
      var (k, v) := entries[|entries| - 1];
      DefinedUnique(init);
      DefinedKeys(init, k);
      assert !HasKey(init, k) by {
        assert forall j :: 0 <= j < |init| ==> init[j].0 == entries[j].0 != k;
      }
    }
  }

  /** One step of the loop over the entries: an `undefined` value sets nothing, and a
      defined one sets a key not set before, which appends it. */
  lemma DefinedStep(entries: seq<(string, QueryValue)>, i: nat)
    requires UniqueKeys(entries) && i < |entries|
    ensures Defined(entries[..i + 1]) == if entries[i].1.Undefined? then Defined(entries[..i])
      else SetParam(Defined(entries[..i]), entries[i].0, Stringify(entries[i].1))
  {
    var (key, value) := entries[i];
    assert entries[..i + 1][..i] == entries[..i];
    if !value.Undefined? {
      DefinedKeys(entries[..i], key);
      assert !HasKey(entries[..i], key) by {
        assert forall j :: 0 <= j < i ==> entries[..i][j].0 == entries[j].0 != key;
      }
      SetParamFresh(Defined(entries[..i]), key, Stringify(value));
    }
  }

  /** `buildUrl(resource, id, query)`: the path, then `searchParams.set(key, String(value))`
      for each entry of the query, in order, skipping `undefined` values. */
  method BuildUrl(base: string, resource: string, id: IdArg, query: Option<seq<(string, QueryValue)>>)
    returns (url: Url)
    requires query.Some? ==> UniqueKeys(query.value)
    ensures url.path == Path(base, resource, id)
    ensures url.params == Defined(query.GetOr([]))
    ensures UniqueKeys(url.params)
  {
    var params: seq<(string, string)> := [];
    if query.Some? {
      var entries := query.value;
      for i := 0 to |entries|
        invariant params == Defined(entries[..i])
      {
        var (key, value) := entries[i];
        DefinedStep(entries, i);
        if !value.Undefined? {
          params := SetParam(params, key, Stringify(value));
        }
      }
      assert entries[..|entries|] == entries;
      DefinedUnique(entries);
    }
    url := Url(Path(base, resource, id), params);
  }

  // ---------------------------------------------------------------------------
  // Query keys

  /** One element of a query key: a resource name or a record id. */
  datatype KeyPart = Name(name: string) | IdPart(id: int)

  const AllKey: seq<KeyPart> := [Name("all")]

  /** `queryKeys.resource(name)`. */
  function ResourceKey(name: string): (k: seq<KeyPart>)
    ensures |k| == 1 && k[0] == Name(name)
  {
    [Name(name)]
  }

  /** `queryKeys.byId(name, id)`. */
  function ByIdKey(name: string, id: int): (k: seq<KeyPart>)
    ensures |k| == 2 && k[0] == Name(name) && k[1] == IdPart(id)
  {
    [Name(name), IdPart(id)]
  }

  /** Invalidation by prefix: a resource's key is a prefix of the key of each of its
      records, and of no other resource's records. */
  lemma ResourceKeyIsPrefix(name: string, other: string, id: int)
    ensures ResourceKey(name) <= ByIdKey(name, id)
    ensures ResourceKey(name) <= ByIdKey(other, id) <==> name == other
  {
  }

  // ---------------------------------------------------------------------------
  // Response classification

  /** What `request` sees of a response: `ok`, `status`, `statusText`, and the body text
      (`None` when reading it fails). */
  datatype Response = Response(ok: bool, status: int, statusText: string, body: Option<string>)

  datatype Outcome = Failure(message: string) | NoContent | Json(text: string)

  /** A response that is not ok raises "API error <status>: <body or statusText>"; an ok
      204 yields nothing and its body is not parsed; any other ok response is parsed. */
  function Classify(r: Response): (o: Outcome)
    ensures o.Failure? <==> !r.ok
    ensures o.NoContent? <==> r.ok && r.status == 204
    ensures o.Failure? ==> (o.message ==
      "API error " + IntToString(r.status) + ": " + (if r.body.GetOr("") != "" then r.body.GetOr("") else r.statusText))
    ensures o.Json? ==> o.text == r.body.GetOr("")
  {
    if !r.ok then
      var text := r.body.GetOr("");
      Failure("API error " + IntToString(r.status) + ": " + (if text != "" then text else r.statusText))
    else if r.status == 204 then NoContent
    else Json(r.body.GetOr(""))
  }

  /** The failure message names the status: two failures with different statuses never
      carry the same message, whatever their bodies or status texts. */
  lemma FailureNamesStatus(r1: Response, r2: Response)
    requires !r1.ok && !r2.ok && r1.status != r2.status
    ensures Classify(r1).message != Classify(r2).message
  {
    var s1, s2 := IntToString(r1.status), IntToString(r2.status);
    var t1 := ": " + (if r1.body.GetOr("") != "" then r1.body.GetOr("") else r1.statusText);
    var t2 := ": " + (if r2.body.GetOr("") != "" then r2.body.GetOr("") else r2.statusText);
    var m1, m2 := Classify(r1).message, Classify(r2).message;
    assert m1 == "API error " + (s1 + t1);
    assert m2 == "API error " + (s2 + t2);
    if m1 == m2 {
      assert s1 + t1 == m1[10..] == s2 + t2;
      IntToStringNoColon(r1.status);
      IntToStringNoColon(r2.status);
      UpToColon(s1, t1, s2, t2);
      IntToStringInjective(r1.status, r2.status);
    }
  }

  /** Text without a ':', followed by text starting with one, is determined up to that colon. */
  lemma UpToColon(s1: string, t1: string, s2: string, t2: string)
    requires ':' !in s1 && ':' !in s2
    requires t1 != [] && t1[0] == ':' && t2 != [] && t2[0] == ':'
    requires s1 + t1 == s2 + t2
    ensures s1 == s2
  {
    FirstColon(s1, t1);
    FirstColon(s2, t2);
    assert |s1| == |s2|;
    assert s1 == (s1 + t1)[..|s1|];
  }

  /** The first ':' of `s + t`, when `s` has none and `t` starts with one, is at `|s|`. */
  lemma FirstColon(s: string, t: string)
    requires ':' !in s && t != [] && t[0] == ':'
    ensures (s + t)[|s|] == ':'
    ensures forall j :: 0 <= j < |s| ==> (s + t)[j] != ':'
  {
    assert forall j :: 0 <= j < |s| ==> (s + t)[j] == s[j];
  }
}

/** String operations the dashboard relies on: `toLowerCase`, `includes`,
    `String(n)` for integers, and the string order used by `localeCompare`. */
module Text {
  import opened Common

  /** `toLowerCase` restricted to ASCII: 'A'..'Z' map to 'a'..'z', everything else is kept. */
  function LowerChar(c: char): char {
    if 'A' <= c <= 'Z' then (c as int + 32) as char else c
  }

  function Lower(s: string): (r: string)
    ensures |r| == |s|
    ensures forall i :: 0 <= i < |s| ==> r[i] == LowerChar(s[i])
  {
    if s == [] then [] else [LowerChar(s[0])] + Lower(s[1..])
  }

  /** Lowering twice is lowering once, and a lowered string has no upper-case letter. */
  lemma LowerIdempotent(s: string)
    ensures Lower(Lower(s)) == Lower(s)
    ensures forall i :: 0 <= i < |s| ==> !('A' <= Lower(s)[i] <= 'Z')
  {
    var l := Lower(s);
    forall i | 0 <= i < |l|
      ensures !('A' <= l[i] <= 'Z') && LowerChar(l[i]) == l[i]
    {
      assert l[i] == LowerChar(s[i]);
    }
    assert Lower(l) == l;
  }

  /** `hay.includes(needle)`: `needle` is a prefix of some suffix of `hay`. */
  predicate Includes(hay: string, needle: string)
    decreases |hay|
  {
    needle <= hay || (hay != [] && Includes(hay[1..], needle))
  }

  /** `includes` holds exactly when `needle` occurs at some position of `hay`. */
  lemma {:induction false} IncludesAt(hay: string, needle: string)
    ensures Includes(hay, needle) <==>
      exists i {:trigger hay[i..]} :: 0 <= i <= |hay| && needle <= hay[i..]
    decreases |hay|
  {
    if Includes(hay, needle) {
      if needle <= hay {
        assert hay[0..] == hay;
      } else {
        IncludesAt(hay[1..], needle);
        var i :| 0 <= i <= |hay[1..]| && needle <= hay[1..][i..];
        assert hay[1..][i..] == hay[i + 1..];
      }
    }
    if exists i {:trigger hay[i..]} :: 0 <= i <= |hay| && needle <= hay[i..] {
      var i :| 0 <= i <= |hay| && needle <= hay[i..];
      if i > 0 {
        assert hay[1..][i - 1..] == hay[i..];
        IncludesAt(hay[1..], needle);
      } else {
        assert hay[0..] == hay;
      }
    }
  }

  /** The empty string occurs everywhere; a non-empty one never occurs in the empty string. */
  lemma IncludesFacts(hay: string, needle: string)
    ensures Includes(hay, "")
    ensures needle != "" ==> !Includes("", needle)
  {
  }

  // ---------------------------------------------------------------------------
  // Decimal rendering of integers, `String(n)` for the integer values of the model.

  function DigitChar(d: int): char
    requires 0 <= d < 10
  {
    ('0' as int + d) as char
  }

  function NatToString(n: nat): (r: string)
    ensures |r| >= 1
    ensures forall i :: 0 <= i < |r| ==> '0' <= r[i] <= '9'
    decreases n
  {
    if n < 10 then [DigitChar(n)] else NatToString(n / 10) + [DigitChar(n % 10)]
  }

  function IntToString(n: int): (r: string)
    ensures |r| >= 1
  {
    if n < 0 then "-" + NatToString(-n) else NatToString(n)
  }

  /** The value of a string of decimal digits; the inverse of `NatToString`. */
  function DecimalValue(s: string): int
    requires forall i :: 0 <= i < |s| ==> '0' <= s[i] <= '9'
  {
    if s == [] then 0 else DecimalValue(s[..|s| - 1]) * 10 + (s[|s| - 1] as int - '0' as int)
  }

  /** Reading the digits back yields the number, so `String(n)` is injective on ids. */
  lemma {:induction false} NatToStringRoundTrip(n: nat)
    ensures DecimalValue(NatToString(n)) == n
  {
    var r := NatToString(n);
    if n >= 10 {
      NatToStringRoundTrip(n / 10);
      assert r[..|r| - 1] == NatToString(n / 10);
    }
  }

  /** A number's decimal form is a sign and digits: it holds no ':'. */
  lemma IntToStringNoColon(n: int)
    ensures ':' !in IntToString(n)
  {
    IntToStringParts(n);
    var s := IntToString(n);
    if n < 0 {
      assert s == [s[0]] + s[1..];
      assert forall i :: 0 <= i < |s[1..]| ==> s[1..][i] != ':';
    }
  }

  /** `String(n)` starts with '-' exactly for negative numbers, and the rest is the digits
      of the magnitude. */
  lemma IntToStringParts(n: int)
    ensures IntToString(n)[0] == '-' <==> n < 0
    ensures n < 0 ==> IntToString(n)[1..] == NatToString(-n)
    ensures n >= 0 ==> IntToString(n) == NatToString(n)
  {
    if n >= 0 {
      assert '0' <= NatToString(n)[0] <= '9';
    } else {
      assert ("-" + NatToString(-n))[1..] == NatToString(-n);
    }
  }

  lemma IntToStringInjective(a: int, b: int)
    requires IntToString(a) == IntToString(b)
    ensures a == b
  {
    IntToStringParts(a);
    IntToStringParts(b);
    var m, n := if a < 0 then -a else a, if b < 0 then -b else b;
    assert (a < 0) == (b < 0);
    assert NatToString(m) == NatToString(n);
    NatToStringRoundTrip(m);
    NatToStringRoundTrip(n);
    assert m == n;
  }

  // ---------------------------------------------------------------------------
  // String order. `localeCompare` is locale-sensitive; the model compares UTF-16
  // code units lexicographically. The two agree on the capitalised ASCII enum names,
  // but not on free text such as tenant names: a collation puts "alice" before "Bob",
  // code-point order puts "Bob" first.

  /** `a` comes no later than `b` in lexicographic order. */
  predicate StrLe(a: string, b: string)
    decreases |a|
  {
    if a == [] then true
    else if b == [] then false
    else if a[0] != b[0] then a[0] < b[0]
    else StrLe(a[1..], b[1..])
  }

  lemma {:induction false} StrLeTotal(a: string, b: string)
    ensures StrLe(a, b) || StrLe(b, a)
    decreases |a|
  {
    if a != [] && b != [] && a[0] == b[0] {
      StrLeTotal(a[1..], b[1..]);
    }
  }

  lemma {:induction false} StrLeTransitive(a: string, b: string, c: string)
    requires StrLe(a, b) && StrLe(b, c)
    ensures StrLe(a, c)
    decreases |a|
  {
    if a != [] && b != [] && c != [] && a[0] == b[0] && b[0] == c[0] {
      StrLeTransitive(a[1..], b[1..], c[1..]);
    }
  }

  lemma {:induction false} StrLeAntisymmetric(a: string, b: string)
    requires StrLe(a, b) && StrLe(b, a)
    ensures a == b
    decreases |a|
  {
    if a != [] && b != [] {
      StrLeAntisymmetric(a[1..], b[1..]);
      assert a == [a[0]] + a[1..];
      assert b == [b[0]] + b[1..];
    }
  }

  // ---------------------------------------------------------------------------
  // The search step shared by the list hooks:
  // `[f1, f2, ...].filter(Boolean).some((v) => String(v).toLowerCase().includes(s))`
  // with `s` the lowered search text.

  /** Some present, non-empty field contains the lowered `needle` once lowered itself.
      An absent field (a failed lookup) and an empty field are skipped, as `filter(Boolean)` does. */
  predicate AnyFieldIncludes(fields: seq<Option<string>>, needle: string)
    decreases |fields|
  {
    && fields != []
    && (|| (fields[0].Some? && fields[0].value != "" && Includes(Lower(fields[0].value), needle))
        || AnyFieldIncludes(fields[1..], needle))
  }

  /** What a search promises: some present field contains the search text, compared
      case-insensitively. */
  predicate SearchMatches(fields: seq<Option<string>>, search: string) {
    exists i :: 0 <= i < |fields| && fields[i].Some? && Includes(Lower(fields[i].value), Lower(search))
  }

  /** The search step keeps an item exactly when one of its present fields contains the
      search text, compared case-insensitively; for a non-empty search the emptiness test
      of `filter(Boolean)` makes no difference. */
  lemma {:induction false} AnyFieldIncludesAt(fields: seq<Option<string>>, search: string)
    requires search != ""
    ensures AnyFieldIncludes(fields, Lower(search)) <==> SearchMatches(fields, search)
    decreases |fields|
  {
    var needle := Lower(search);
    if fields != [] {
      AnyFieldIncludesAt(fields[1..], search);
      if fields[0].Some? && fields[0].value == "" {
        IncludesFacts(Lower(fields[0].value), needle);
        assert Lower(fields[0].value) == "";
      }
      if exists i :: 0 <= i < |fields| && fields[i].Some? && Includes(Lower(fields[i].value), needle) {
        var i :| 0 <= i < |fields| && fields[i].Some? && Includes(Lower(fields[i].value), needle);
        if i > 0 {
          assert fields[1..][i - 1] == fields[i];
        }
      }
      if AnyFieldIncludes(fields[1..], needle) {
        var i :| 0 <= i < |fields[1..]| && fields[1..][i].Some? && Includes(Lower(fields[1..][i].value), needle);
        assert fields[i + 1] == fields[1..][i];
      }
    }
  }
}

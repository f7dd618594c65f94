/** The pieces of the form schemas' validation that every schema shares: numbers as
    `z.coerce.number()` leaves them, the numeric refinements, string minimum lengths and
    enumerations with a default. A schema's parse reports every field that fails, so a
    failed parse is modelled as the set of failing field names. */
module Zod {
  import opened Common

  /** A number after coercion: an integer, a non-integer lying strictly between `floor`
      and `floor + 1`, or NaN. Knowing the floor is enough to decide every sign test the
      schemas make. */
  datatype Num = Int(value: int) | Frac(floor: int) | NaN

  /** `.int().positive()` */
  predicate PositiveInt(n: Num) {
    n.Int? && n.value > 0
  }

  /** `.int().nonnegative()` */
  predicate NonNegativeInt(n: Num) {
    n.Int? && n.value >= 0
  }

  /** `.positive()`: a non-integer between `f` and `f + 1` is positive exactly when `f >= 0`. */
  predicate Positive(n: Num) {
    match n
    case Int(v) => v > 0
    case Frac(f) => f >= 0
    case NaN => false
  }

  /** `.nonnegative()` */
  predicate NonNegative(n: Num) {
    match n
    case Int(v) => v >= 0
    case Frac(f) => f >= 0
    case NaN => false
  }

  /** `z.number()` on its own: any number but NaN. */
  predicate IsNumber(n: Num) {
    !n.NaN?
  }

  /** `.min(k)` on a string. */
  predicate MinLength(s: string, k: nat) {
    |s| >= k
  }

  /** `z.enum(allowed).default(d)`: an absent value becomes `d`, a present one must be one
      of `allowed`. `None` means the value is rejected. */
  function EnumOr(input: Option<string>, allowed: seq<string>, default: string): (r: Option<string>)
    ensures input.None? ==> r == Some(default)
    ensures input.Some? ==> (r.Some? <==> input.value in allowed)
    ensures input.Some? && r.Some? ==> r.value == input.value
  {
    match input
    case None => Some(default)
    case Some(v) => if v in allowed then Some(v) else None
  }

  /** The issue a field contributes: its name when its check fails. */
  function Check<F>(ok: bool, field: F): set<F> {
    if ok then {} else {field}
  }
}

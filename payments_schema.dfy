/** `paymentSchema` (`utils/paymentsSchema.ts`), the validation of the payment form. */
module PaymentsSchema {
  import opened Common
  import opened Zod

  const Methods: seq<string> := ["M-Pesa", "Bank Transfer", "Cash", "Card"]
  const Statuses: seq<string> := ["Completed", "Pending", "Overdue"]

  /** The form's values before parsing; an absent enum value is `None`. */
  datatype PaymentInput = PaymentInput(
    tenantId: Num, leaseId: Num, amount: Num, payMethod: Option<string>,
    date: string, status: Option<string>, reference: string)

  /** The values a successful parse yields. */
  datatype PaymentValues = PaymentValues(
    tenantId: int, leaseId: int, amount: Num, payMethod: string,
    date: string, status: string, reference: string)

  /** The keys of the schema: the paths its issues are reported at. */
  datatype Field = TenantId | LeaseId | Amount | Method | Status | Reference

  const Fields: set<Field> := {TenantId, LeaseId, Amount, Method, Status, Reference}

  /** The check each key makes. */
  predicate Passes(i: PaymentInput, f: Field) {
    match f
    case TenantId => PositiveInt(i.tenantId)
    case LeaseId => PositiveInt(i.leaseId)
    case Amount => Positive(i.amount)
    case Method => EnumOr(i.payMethod, Methods, "Cash").Some?
    case Status => EnumOr(i.status, Statuses, "Completed").Some?
    case Reference => MinLength(i.reference, 1)
  }

  /** The issues of one form: every key whose check fails, and no other. */
  function Issues(i: PaymentInput): (r: set<Field>)
    ensures TenantId in r <==> !Passes(i, TenantId)
    ensures LeaseId in r <==> !Passes(i, LeaseId)
    ensures Amount in r <==> !Passes(i, Amount)
    ensures Method in r <==> !Passes(i, Method)
    ensures Status in r <==> !Passes(i, Status)
    ensures Reference in r <==> !Passes(i, Reference)
  {
    set f | f in Fields && !Passes(i, f)
  }

  /** The parse: ids must be positive integers, the amount strictly positive (so 0 is
      refused), the method one of the four (absent: "Cash"), the status one of the three
      (absent: "Completed"), the reference non-empty; the date may be any string. A failed
      parse names exactly the failing fields. */
  function Parse(i: PaymentInput): (r: Result<PaymentValues, set<Field>>)
    ensures r.Ok? <==>
      && PositiveInt(i.tenantId) && PositiveInt(i.leaseId) && Positive(i.amount)
      && (i.payMethod.None? || i.payMethod.value in Methods)
      && (i.status.None? || i.status.value in Statuses)
      && i.reference != ""
    ensures r.Err? ==>
      && (TenantId in r.error <==> !PositiveInt(i.tenantId))
      && (LeaseId in r.error <==> !PositiveInt(i.leaseId))
      && (Amount in r.error <==> !Positive(i.amount))
      && (Method in r.error <==> i.payMethod.Some? && i.payMethod.value !in Methods)
      && (Status in r.error <==> i.status.Some? && i.status.value !in Statuses)
      && (Reference in r.error <==> i.reference == "")
      && r.error <= {TenantId, LeaseId, Amount, Method, Status, Reference}
    ensures r.Ok? ==> r.value == PaymentValues(i.tenantId.value, i.leaseId.value, i.amount,
      i.payMethod.GetOr("Cash"), i.date, i.status.GetOr("Completed"), i.reference)
  {
    var issues := Issues(i);
    if issues == {} then
      Ok(PaymentValues(i.tenantId.value, i.leaseId.value, i.amount,
        EnumOr(i.payMethod, Methods, "Cash").value, i.date,
        EnumOr(i.status, Statuses, "Completed").value, i.reference))
    else Err(issues)
  }

  /** The form filled in with parsed values. */
  function Unparse(v: PaymentValues): PaymentInput {
    PaymentInput(Int(v.tenantId), Int(v.leaseId), v.amount, Some(v.payMethod), v.date, Some(v.status), v.reference)
  }

  /** Parsed values are a fixed point: filling the form with them parses to the same values. */
  lemma ParseRoundTrip(i: PaymentInput)
    requires Parse(i).Ok?
    ensures Parse(Unparse(Parse(i).value)) == Parse(i)
  {
  }
}

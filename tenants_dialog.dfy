/** The tenant form (`components/tenants/TenantsDialog.tsx`): its schema and the values it
    starts from for a new or an edited tenant. */
module TenantsDialog {
  import opened Common
  import opened Zod
  import opened Entities

  const TenantStatuses: seq<string> := ["Active", "Inactive"]
  const PaymentStatuses: seq<string> := ["Paid", "Pending", "Overdue"]

  datatype TenantInput = TenantInput(
    name: string, unit: string, phone: string, rentAmount: Num, status: Option<string>,
    paymentStatus: Option<string>, propertyId: Num)

  datatype TenantValues = TenantValues(
    name: string, unit: string, phone: string, rentAmount: Num, status: string,
    paymentStatus: string, propertyId: int)

  /** The keys of the schema: the paths its issues are reported at. */
  datatype Field = Name | Unit | Phone | RentAmount | Status | PaymentStatus | PropertyId

  const Fields: set<Field> := {Name, Unit, Phone, RentAmount, Status, PaymentStatus, PropertyId}

  /** The check each key makes. */
  predicate Passes(i: TenantInput, f: Field) {
    match f
    case Name => MinLength(i.name, 2)
    case Unit => MinLength(i.unit, 1)
    case Phone => MinLength(i.phone, 7)
    case RentAmount => NonNegative(i.rentAmount)
    case Status => EnumOr(i.status, TenantStatuses, "Active").Some?
    case PaymentStatus => EnumOr(i.paymentStatus, PaymentStatuses, "Pending").Some?
    case PropertyId => PositiveInt(i.propertyId)
  }

  /** The issues of one form: every key whose check fails, and no other. */
  function Issues(i: TenantInput): (r: set<Field>)
    ensures Name in r <==> !Passes(i, Name)
    ensures Unit in r <==> !Passes(i, Unit)
    ensures Phone in r <==> !Passes(i, Phone)
    ensures RentAmount in r <==> !Passes(i, RentAmount)
    ensures Status in r <==> !Passes(i, Status)
    ensures PaymentStatus in r <==> !Passes(i, PaymentStatus)
    ensures PropertyId in r <==> !Passes(i, PropertyId)
  {
    set f | f in Fields && !Passes(i, f)
  }

  /** `tenantSchema`: a name of two or more characters, a non-empty unit, a phone of seven
      or more characters, a non-negative rent, a status among the two (absent: "Active"),
      a payment status among the three (absent: "Pending") and a positive-integer property.
      A failed parse names exactly the failing fields. */
  function Parse(i: TenantInput): (r: Result<TenantValues, set<Field>>)
    ensures r.Ok? <==>
      && |i.name| >= 2 && i.unit != "" && |i.phone| >= 7 && NonNegative(i.rentAmount)
      && (i.status.None? || i.status.value in TenantStatuses)
      && (i.paymentStatus.None? || i.paymentStatus.value in PaymentStatuses)
      && PositiveInt(i.propertyId)
    ensures r.Err? ==>
      && (Name in r.error <==> |i.name| < 2)
      && (Unit in r.error <==> i.unit == "")
      && (Phone in r.error <==> |i.phone| < 7)
      && (RentAmount in r.error <==> !NonNegative(i.rentAmount))
      && (Status in r.error <==> i.status.Some? && i.status.value !in TenantStatuses)
      && (PaymentStatus in r.error <==> i.paymentStatus.Some? && i.paymentStatus.value !in PaymentStatuses)
      && (PropertyId in r.error <==> !PositiveInt(i.propertyId))
      && r.error <= {Name, Unit, Phone, RentAmount, Status, PaymentStatus, PropertyId}
    ensures r.Ok? ==> r.value == TenantValues(i.name, i.unit, i.phone, i.rentAmount,
      i.status.GetOr("Active"), i.paymentStatus.GetOr("Pending"), i.propertyId.value)
  {
    var issues := Issues(i);
    if issues == {} then
      Ok(TenantValues(i.name, i.unit, i.phone, i.rentAmount,
        EnumOr(i.status, TenantStatuses, "Active").value,
        EnumOr(i.paymentStatus, PaymentStatuses, "Pending").value, i.propertyId.value))
    else Err(issues)
  }

  function Unparse(v: TenantValues): TenantInput {
    TenantInput(v.name, v.unit, v.phone, v.rentAmount, Some(v.status), Some(v.paymentStatus), Int(v.propertyId))
  }

  /** Parsed values are a fixed point of the schema. */
  lemma ParseRoundTrip(i: TenantInput)
    requires Parse(i).Ok?
    ensures Parse(Unparse(Parse(i).value)) == Parse(i)
  {
  }

  /** A new tenant: blank name, unit and phone, rent 0, "Active", "Pending", and the first
      property's id (1 when there are no properties). */
  function NewDefaults(properties: seq<Property>): (d: TenantInput)
    ensures d.name == "" && d.unit == "" && d.phone == "" && d.rentAmount == Int(0)
    ensures d.status == Some("Active") && d.paymentStatus == Some("Pending")
    ensures d.propertyId == Int(if properties == [] then 1 else properties[0].id)
  {
    TenantInput("", "", "", Int(0), Some("Active"), Some("Pending"),
      Int(if properties == [] then 1 else properties[0].id))
  }

  /** The blank form is refused for its name, unit and phone, and for its property only
      when the first property's id is not positive. */
  lemma NewDefaultsRefused(properties: seq<Property>)
    ensures var r := Parse(NewDefaults(properties));
      r.Err? && r.error == {Name, Unit, Phone} +
        (if properties != [] && properties[0].id <= 0 then {PropertyId} else {})
  {
    var r := Parse(NewDefaults(properties));
    var extra: set<Field> := if properties != [] && properties[0].id <= 0 then {PropertyId} else {};
    assert r.error <= {Name, Unit, Phone} + extra;
  }

  /** Editing: the tenant's own values. */
  function EditDefaults(t: Tenant): (d: TenantInput)
    ensures d.name == t.name && d.unit == t.unit && d.phone == t.phone
    ensures d.rentAmount == Int(t.rentAmount) && d.propertyId == Int(t.propertyId)
    ensures d.status == Some(t.status) && d.paymentStatus == Some(t.paymentStatus)
  {
    TenantInput(t.name, t.unit, t.phone, Int(t.rentAmount), Some(t.status), Some(t.paymentStatus), Int(t.propertyId))
  }
}

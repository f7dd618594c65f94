/** The quick-add page (`pages/QuickAdd.tsx`): three short forms, each creating a record
    whose other fields are fixed. `nowMs` is `Date.now()` and `nowIso` is
    `new Date().toISOString()`, both read when the payment is created. */
module QuickAdd {
  import opened Common
  import opened Zod
  import opened Text
  import PropertiesPage
  import TenantsDialog
  import PaymentsSchema

  // ---------------------------------------------------------------------------
  // The three schemas

  /** The keys of the three quick schemas: the paths their issues are reported at. */
  datatype Field = Name | Location | Phone | TenantId | Amount

  /** Name and location, each of at least two characters. */
  function ParseProperty(name: string, location: string): (r: Result<(string, string), set<Field>>)
    ensures r.Ok? <==> |name| >= 2 && |location| >= 2
    ensures r.Ok? ==> r.value == (name, location)
    ensures r.Err? ==> (Name in r.error <==> |name| < 2) && (Location in r.error <==> |location| < 2)
  {
    var issues := Check(MinLength(name, 2), Name) + Check(MinLength(location, 2), Location);
    if issues == {} then Ok((name, location)) else Err(issues)
  }

  /** A name of at least two characters and a phone of at least seven. */
  function ParseTenant(name: string, phone: string): (r: Result<(string, string), set<Field>>)
    ensures r.Ok? <==> |name| >= 2 && |phone| >= 7
    ensures r.Ok? ==> r.value == (name, phone)
    ensures r.Err? ==> (Name in r.error <==> |name| < 2) && (Phone in r.error <==> |phone| < 7)
  {
    var issues := Check(MinLength(name, 2), Name) + Check(MinLength(phone, 7), Phone);
    if issues == {} then Ok((name, phone)) else Err(issues)
  }

  /** A positive-integer tenant and a strictly positive amount. */
  function ParsePayment(tenantId: Num, amount: Num): (r: Result<(int, Num), set<Field>>)
    ensures r.Ok? <==> PositiveInt(tenantId) && Positive(amount)
    ensures r.Ok? ==> r.value == (tenantId.value, amount)
    ensures r.Err? ==> (TenantId in r.error <==> !PositiveInt(tenantId)) && (Amount in r.error <==> !Positive(amount))
  {
    var issues := Check(PositiveInt(tenantId), TenantId) + Check(Positive(amount), Amount);
    if issues == {} then Ok((tenantId.value, amount)) else Err(issues)
  }

  // ---------------------------------------------------------------------------
  // The records created

  datatype PropertyRequest = PropertyRequest(
    name: string, location: string, totalUnits: int, occupiedUnits: int, monthlyRevenue: int,
    status: string, archived: bool)

  datatype TenantRequest = TenantRequest(
    name: string, phone: string, unit: string, rentAmount: int, status: string,
    paymentStatus: string, propertyId: int, archived: bool)

  datatype PaymentRequest = PaymentRequest(
    tenantId: int, leaseId: int, amount: Num, payMethod: string, date: string, status: string,
    reference: string, archived: bool)

  /** The property created: the two given fields, no units, no revenue, "Active", not archived. */
  function NewProperty(name: string, location: string): (r: PropertyRequest)
    ensures r.name == name && r.location == location
    ensures r.totalUnits == 0 && r.occupiedUnits == 0 && r.monthlyRevenue == 0
    ensures r.status == "Active" && !r.archived
  {
    PropertyRequest(name, location, 0, 0, 0, "Active", false)
  }

  /** The tenant created: the two given fields, no unit, rent 0, "Active", "Pending",
      property 1, not archived. */
  function NewTenant(name: string, phone: string): (r: TenantRequest)
    ensures r.name == name && r.phone == phone
    ensures r.unit == "" && r.rentAmount == 0 && r.propertyId == 1
    ensures r.status == "Active" && r.paymentStatus == "Pending" && !r.archived
  {
    TenantRequest(name, phone, "", 0, "Active", "Pending", 1, false)
  }

  /** The payment created: the two given fields, lease 1, "Cash", "Completed", dated now,
      a reference "QK-" followed by the current time, not archived. */
  function NewPayment(tenantId: int, amount: Num, nowMs: int, nowIso: string): (r: PaymentRequest)
    ensures r.tenantId == tenantId && r.amount == amount && r.date == nowIso
    ensures r.leaseId == 1 && r.payMethod == "Cash" && r.status == "Completed" && !r.archived
    ensures |r.reference| > 3 && r.reference[..3] == "QK-" && r.reference[3..] == IntToString(nowMs)
  {
    PaymentRequest(tenantId, 1, amount, "Cash", nowIso, "Completed", "QK-" + IntToString(nowMs), false)
  }

  // ---------------------------------------------------------------------------
  // The quick records against the full forms

  /** A quick property is one the full property form accepts as it stands. */
  lemma QuickPropertyPassesPropertyForm(name: string, location: string)
    requires ParseProperty(name, location).Ok?
    ensures var r := NewProperty(name, location);
      PropertiesPage.Submit(PropertiesPage.PropertyInput(r.name, r.location, Int(r.totalUnits),
        Int(r.occupiedUnits), Int(r.monthlyRevenue), Some(r.status))).Ok?
  {
  }

  /** A quick tenant is one the full tenant form refuses for its empty unit, so it cannot
      be saved from the edit dialog until a unit is filled in. */
  lemma QuickTenantRefusedByTenantForm(name: string, phone: string)
    ensures var r := NewTenant(name, phone);
      var p := TenantsDialog.Parse(TenantsDialog.TenantInput(r.name, r.unit, r.phone, Int(r.rentAmount),
        Some(r.status), Some(r.paymentStatus), Int(r.propertyId)));
      p.Err? && TenantsDialog.Unit in p.error
  {
  }

  /** A quick payment is one the full payment schema accepts as it stands. */
  lemma QuickPaymentPassesPaymentSchema(tenantId: Num, amount: Num, nowMs: int, nowIso: string)
    requires ParsePayment(tenantId, amount).Ok?
    ensures var r := NewPayment(ParsePayment(tenantId, amount).value.0, amount, nowMs, nowIso);
      PaymentsSchema.Parse(PaymentsSchema.PaymentInput(Int(r.tenantId), Int(r.leaseId), r.amount,
        Some(r.payMethod), r.date, Some(r.status), r.reference)).Ok?
  {
  }
}

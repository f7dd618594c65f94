/** The leases page (`pages/Leases.tsx`): the lease form's schema, its default values for
    a new lease, an edit and a renewal, the two submit handlers, the create/update choice,
    and the `?status=` whitelist. `isoDay(t)` stands for
    `new Date(t).toISOString().slice(0, 10)` and `toIso(s)` for
    `new Date(s).toISOString()`. */
module LeasesPage {
  import opened Common
  import opened Zod
  import opened Entities
  import opened LeasesData

  /** 365 days in milliseconds, the default lease term. */
  const YearMs: int := 31536000000

  const LeaseStatuses: seq<string> := ["Active", "Terminated", "Pending"]

  datatype LeaseInput = LeaseInput(
    propertyId: Num, tenantId: Num, unit: string, startDate: string, endDate: string,
    rentAmount: Num, status: Option<string>)

  datatype LeaseValues = LeaseValues(
    propertyId: int, tenantId: int, unit: string, startDate: string, endDate: string,
    rentAmount: Num, status: string)

  // ---------------------------------------------------------------------------
  // leaseSchema

  /** The keys of the schema: the paths its issues are reported at. */
  datatype Field = PropertyId | TenantId | Unit | StartDate | EndDate | RentAmount | Status

  const Fields: set<Field> := {PropertyId, TenantId, Unit, StartDate, EndDate, RentAmount, Status}

  /** The check each key makes. */
  predicate Passes(i: LeaseInput, f: Field) {
    match f
    case PropertyId => PositiveInt(i.propertyId)
    case TenantId => PositiveInt(i.tenantId)
    case Unit => MinLength(i.unit, 1)
    case StartDate => MinLength(i.startDate, 4)
    case EndDate => MinLength(i.endDate, 4)
    case RentAmount => NonNegative(i.rentAmount)
    case Status => EnumOr(i.status, LeaseStatuses, "Active").Some?
  }

  /** The issues of one form: every key whose check fails, and no other. */
  function Issues(i: LeaseInput): (r: set<Field>)
    ensures PropertyId in r <==> !Passes(i, PropertyId)
    ensures TenantId in r <==> !Passes(i, TenantId)
    ensures Unit in r <==> !Passes(i, Unit)
    ensures StartDate in r <==> !Passes(i, StartDate)
    ensures EndDate in r <==> !Passes(i, EndDate)
    ensures RentAmount in r <==> !Passes(i, RentAmount)
    ensures Status in r <==> !Passes(i, Status)
  {
    set f | f in Fields && !Passes(i, f)
  }

  /** The parse: positive-integer property and tenant, a non-empty unit, dates of at least
      four characters, a non-negative rent, a status among the three (absent: "Active").
      A failed parse names exactly the failing fields. */
  function Parse(i: LeaseInput): (r: Result<LeaseValues, set<Field>>)
    ensures r.Ok? <==>
      && PositiveInt(i.propertyId) && PositiveInt(i.tenantId) && i.unit != ""
      && |i.startDate| >= 4 && |i.endDate| >= 4 && NonNegative(i.rentAmount)
      && (i.status.None? || i.status.value in LeaseStatuses)
    ensures r.Err? ==>
      && (PropertyId in r.error <==> !PositiveInt(i.propertyId))
      && (TenantId in r.error <==> !PositiveInt(i.tenantId))
      && (Unit in r.error <==> i.unit == "")
      && (StartDate in r.error <==> |i.startDate| < 4)
      && (EndDate in r.error <==> |i.endDate| < 4)
      && (RentAmount in r.error <==> !NonNegative(i.rentAmount))
      && (Status in r.error <==> i.status.Some? && i.status.value !in LeaseStatuses)
    ensures r.Ok? ==> r.value == LeaseValues(i.propertyId.value, i.tenantId.value, i.unit,
      i.startDate, i.endDate, i.rentAmount, i.status.GetOr("Active"))
  {
    var issues := Issues(i);
    if issues == {} then
      Ok(LeaseValues(i.propertyId.value, i.tenantId.value, i.unit, i.startDate, i.endDate,
        i.rentAmount, EnumOr(i.status, LeaseStatuses, "Active").value))
    else Err(issues)
  }

  function Unparse(v: LeaseValues): LeaseInput {
    LeaseInput(Int(v.propertyId), Int(v.tenantId), v.unit, v.startDate, v.endDate, v.rentAmount, Some(v.status))
  }

  /** Parsed values are a fixed point of the schema. */
  lemma ParseRoundTrip(i: LeaseInput)
    requires Parse(i).Ok?
    ensures Parse(Unparse(Parse(i).value)) == Parse(i)
  {
  }

  // ---------------------------------------------------------------------------
  // Default values

  /** A new lease: the first property and tenant (id 1 when there are none), an empty
      unit, today as start and 365 days from now as end, rent 0, status "Active". */
  function NewLeaseDefaults(properties: seq<Property>, tenants: seq<Tenant>, now: int, isoDay: int -> string)
    : (d: LeaseInput)
    ensures d.propertyId == Int(if properties == [] then 1 else properties[0].id)
    ensures d.tenantId == Int(if tenants == [] then 1 else tenants[0].id)
    ensures d.unit == "" && d.rentAmount == Int(0) && d.status == Some("Active")
    ensures d.startDate == isoDay(now) && d.endDate == isoDay(now + 365 * Day)
  {
    LeaseInput(
      Int(if properties == [] then 1 else properties[0].id),
      Int(if tenants == [] then 1 else tenants[0].id),
      "", isoDay(now), isoDay(now + YearMs), Int(0), Some("Active"))
  }

  /** The new-lease form cannot be submitted as it stands: its unit is empty. */
  lemma NewLeaseNeedsUnit(properties: seq<Property>, tenants: seq<Tenant>, now: int, isoDay: int -> string)
    ensures var r := Parse(NewLeaseDefaults(properties, tenants, now, isoDay)); r.Err? && Unit in r.error
  {
  }

  /** The first `n` characters of `s`, as `s.slice(0, n)`. */
  function Prefix(s: string, n: nat): (r: string)
    ensures |r| == Min(n, |s|) && r == s[..|r|]
  {
    if |s| <= n then s else s[..n]
  }

  /** Editing: the lease's own values, with both dates cut to their first ten characters. */
  function EditDefaults(l: Lease): (d: LeaseInput)
    ensures d.propertyId == Int(l.propertyId) && d.tenantId == Int(l.tenantId) && d.unit == l.unit
    ensures d.startDate == Prefix(l.startDate, 10) && d.endDate == Prefix(l.endDate, 10)
    ensures d.rentAmount == Int(l.rentAmount) && d.status == Some(l.status)
  {
    LeaseInput(Int(l.propertyId), Int(l.tenantId), l.unit, Prefix(l.startDate, 10), Prefix(l.endDate, 10),
      Int(l.rentAmount), Some(l.status))
  }

  /** Renewing: property, tenant, unit and rent copied from the base lease, the new term
      starting on the base lease's end date and ending 365 days later, status "Active". */
  function RenewDefaults(base: Lease, ms: DateMs, isoDay: int -> string): (d: LeaseInput)
    ensures d.propertyId == Int(base.propertyId) && d.tenantId == Int(base.tenantId)
    ensures d.unit == base.unit && d.rentAmount == Int(base.rentAmount) && d.status == Some("Active")
    ensures d.startDate == isoDay(ms(base.endDate)) && d.endDate == isoDay(ms(base.endDate) + 365 * Day)
  {
    var end := ms(base.endDate);
    LeaseInput(Int(base.propertyId), Int(base.tenantId), base.unit, isoDay(end), isoDay(end + YearMs),
      Int(base.rentAmount), Some("Active"))
  }

  // ---------------------------------------------------------------------------
  // Submitting

  /** The values handed on after a successful submit: both dates rewritten to ISO form,
      everything else as parsed. */
  function WithIsoDates(v: LeaseValues, toIso: string -> string): (w: LeaseValues)
    ensures w.startDate == toIso(v.startDate) && w.endDate == toIso(v.endDate)
    ensures w.propertyId == v.propertyId && w.tenantId == v.tenantId && w.unit == v.unit
    ensures w.rentAmount == v.rentAmount && w.status == v.status
  {
    v.(startDate := toIso(v.startDate), endDate := toIso(v.endDate))
  }

  /** `LeaseDialog`'s submit: schema errors first; then an end date not after the start
      date is an error on `EndDate` and nothing is submitted; otherwise the values go on
      with ISO dates. */
  function DialogSubmit(i: LeaseInput, ms: DateMs, toIso: string -> string): (r: Result<LeaseValues, set<Field>>)
    ensures Parse(i).Err? ==> r == Parse(i)
    ensures Parse(i).Ok? && ms(i.endDate) <= ms(i.startDate) ==> r == Err({EndDate})
    ensures Parse(i).Ok? && ms(i.endDate) > ms(i.startDate) ==> r == Ok(WithIsoDates(Parse(i).value, toIso))
  {
    match Parse(i)
    case Err(e) => Err(e)
    case Ok(v) =>
      if ms(v.endDate) <= ms(v.startDate) then Err({EndDate})
      else Ok(WithIsoDates(v, toIso))
  }

  /** `LeaseRenewDialog`'s submit: schema errors, otherwise the values with ISO dates;
      there is no date-order check. */
  function RenewSubmit(i: LeaseInput, toIso: string -> string): (r: Result<LeaseValues, set<Field>>)
    ensures Parse(i).Err? ==> r == Parse(i)
    ensures Parse(i).Ok? ==> r == Ok(WithIsoDates(Parse(i).value, toIso))
  {
    match Parse(i)
    case Err(e) => Err(e)
    case Ok(v) => Ok(WithIsoDates(v, toIso))
  }

  /** A successful dialog submit always has its end after its start. */
  lemma DialogSubmitOrdersDates(i: LeaseInput, ms: DateMs, toIso: string -> string)
    requires DialogSubmit(i, ms, toIso).Ok?
    ensures ms(i.endDate) > ms(i.startDate)
  {
  }

  /** The renewal form accepts a term that the lease dialog refuses: whenever the schema
      passes but the end is not after the start, the dialog reports `EndDate` while the
      renewal goes through. */
  lemma RenewSkipsDateOrderCheck(i: LeaseInput, ms: DateMs, toIso: string -> string)
    requires Parse(i).Ok? && ms(i.endDate) <= ms(i.startDate)
    ensures DialogSubmit(i, ms, toIso) == Err({EndDate})
    ensures RenewSubmit(i, toIso).Ok?
  {
  }

  /** What the page does with submitted values: update the lease being edited, or create. */
  datatype LeaseMutation = Update(id: int, values: LeaseValues) | Create(values: LeaseValues)

  function OnSubmit(editing: Option<Lease>, values: LeaseValues): (m: LeaseMutation)
    ensures m.values == values
    ensures m.Update? <==> editing.Some?
    ensures m.Update? ==> m.id == editing.value.id
  {
    if editing.Some? then Update(editing.value.id, values) else Create(values)
  }

  // ---------------------------------------------------------------------------
  // `?status=` link

  const AllowedStatusParams: seq<string> := ["Active", "Expired", "Pending Renewal", "Pending", "Archived"]

  /** A non-empty `status` parameter on the whitelist becomes the status filter; anything
      else leaves the filters as they are. */
  function ApplyStatusParam(f: LeasesFilters, status: Option<string>): (r: LeasesFilters)
    ensures status.Some? && status.value in AllowedStatusParams ==> r == f.(status := status)
    ensures !(status.Some? && status.value in AllowedStatusParams) ==> r == f
  {
    if StrSet(status) && status.value in AllowedStatusParams then SetFilter(f, SetStatus(status)) else f
  }

  /** After a whitelisted link the list shows what the link names: archived leases for
      "Archived", otherwise leases whose computed status is the named one. */
  lemma StatusLinkLists(
    leases: seq<Lease>, f: LeasesFilters, propertyById: map<int, Property>, tenantById: map<int, Tenant>,
    now: int, ms: DateMs, s: string, l: Lease)
    requires s in AllowedStatusParams
    requires l in Filtered(leases, ApplyStatusParam(f, Some(s)), propertyById, tenantById, now, ms)
    ensures s == "Archived" ==> Truthy(l.archived)
    ensures s != "Archived" ==> ComputedStatus(l, now, ms) == s
  {
    FilteredArchiveAndStatus(leases, ApplyStatusParam(f, Some(s)), propertyById, tenantById, now, ms, l);
  }
}

/** The properties page (`pages/Properties.tsx`): the property form's schema and its
    occupied-versus-total check, the archive filter of the list, and the payloads of the
    create, update and archive-toggle requests. */
module PropertiesPage {
  import opened Common
  import opened Zod
  import opened Entities

  const PropertyStatuses: seq<string> := ["Active", "Inactive"]

  datatype PropertyInput = PropertyInput(
    name: string, location: string, totalUnits: Num, occupiedUnits: Num, monthlyRevenue: Num,
    status: Option<string>)

  datatype PropertyValues = PropertyValues(
    name: string, location: string, totalUnits: int, occupiedUnits: int, monthlyRevenue: Num,
    status: string)

  // ---------------------------------------------------------------------------
  // propertySchema

  /** The keys of the schema: the paths its issues are reported at. */
  datatype Field = Name | Location | TotalUnits | OccupiedUnits | MonthlyRevenue | Status

  const Fields: set<Field> := {Name, Location, TotalUnits, OccupiedUnits, MonthlyRevenue, Status}

  /** The check each key makes. */
  predicate Passes(i: PropertyInput, f: Field) {
    match f
    case Name => MinLength(i.name, 2)
    case Location => MinLength(i.location, 2)
    case TotalUnits => NonNegativeInt(i.totalUnits)
    case OccupiedUnits => NonNegativeInt(i.occupiedUnits)
    case MonthlyRevenue => NonNegative(i.monthlyRevenue)
    case Status => EnumOr(i.status, PropertyStatuses, "Active").Some?
  }

  /** The issues of one form: every key whose check fails, and no other. */
  function Issues(i: PropertyInput): (r: set<Field>)
    ensures Name in r <==> !Passes(i, Name)
    ensures Location in r <==> !Passes(i, Location)
    ensures TotalUnits in r <==> !Passes(i, TotalUnits)
    ensures OccupiedUnits in r <==> !Passes(i, OccupiedUnits)
    ensures MonthlyRevenue in r <==> !Passes(i, MonthlyRevenue)
    ensures Status in r <==> !Passes(i, Status)
  {
    set f | f in Fields && !Passes(i, f)
  }

  /** The parse: name and location of at least two characters, whole non-negative unit
      counts, a non-negative revenue and a status among the two (absent: "Active"). A
      failed parse names exactly the failing fields. */
  function Parse(i: PropertyInput): (r: Result<PropertyValues, set<Field>>)
    ensures r.Ok? <==>
      && |i.name| >= 2 && |i.location| >= 2
      && NonNegativeInt(i.totalUnits) && NonNegativeInt(i.occupiedUnits) && NonNegative(i.monthlyRevenue)
      && (i.status.None? || i.status.value in PropertyStatuses)
    ensures r.Err? ==>
      && (Name in r.error <==> |i.name| < 2)
      && (Location in r.error <==> |i.location| < 2)
      && (TotalUnits in r.error <==> !NonNegativeInt(i.totalUnits))
      && (OccupiedUnits in r.error <==> !NonNegativeInt(i.occupiedUnits))
      && (MonthlyRevenue in r.error <==> !NonNegative(i.monthlyRevenue))
      && (Status in r.error <==> i.status.Some? && i.status.value !in PropertyStatuses)
    ensures r.Ok? ==> r.value == PropertyValues(i.name, i.location, i.totalUnits.value,
      i.occupiedUnits.value, i.monthlyRevenue, i.status.GetOr("Active"))
  {
    var issues := Issues(i);
    if issues == {} then
      Ok(PropertyValues(i.name, i.location, i.totalUnits.value, i.occupiedUnits.value, i.monthlyRevenue,
        EnumOr(i.status, PropertyStatuses, "Active").value))
    else Err(issues)
  }

  function Unparse(v: PropertyValues): PropertyInput {
    PropertyInput(v.name, v.location, Int(v.totalUnits), Int(v.occupiedUnits), v.monthlyRevenue, Some(v.status))
  }

  /** Parsed values are a fixed point of the schema. */
  lemma ParseRoundTrip(i: PropertyInput)
    requires Parse(i).Ok?
    ensures Parse(Unparse(Parse(i).value)) == Parse(i)
  {
  }

  /** The dialog's submit: schema errors first; then more occupied units than total units
      is an error on `OccupiedUnits` and nothing is submitted; equal counts are accepted. */
  function Submit(i: PropertyInput): (r: Result<PropertyValues, set<Field>>)
    ensures r.Ok? <==> Parse(i).Ok? && Parse(i).value.occupiedUnits <= Parse(i).value.totalUnits
    ensures r.Ok? ==> r == Parse(i)
    ensures Parse(i).Err? ==> r == Parse(i)
    ensures Parse(i).Ok? && Parse(i).value.occupiedUnits > Parse(i).value.totalUnits ==> r == Err({OccupiedUnits})
  {
    match Parse(i)
    case Err(e) => Err(e)
    case Ok(v) => if v.occupiedUnits > v.totalUnits then Err({OccupiedUnits}) else Ok(v)
  }

  // ---------------------------------------------------------------------------
  // Form defaults

  /** A new property: empty name and location, zero units and revenue, status "Active". */
  function NewDefaults(): (d: PropertyInput)
    ensures d.name == "" && d.location == "" && d.status == Some("Active")
    ensures d.totalUnits == Int(0) && d.occupiedUnits == Int(0) && d.monthlyRevenue == Int(0)
  {
    PropertyInput("", "", Int(0), Int(0), Int(0), Some("Active"))
  }

  /** The blank form is refused for exactly its name and location. */
  lemma NewDefaultsNeedNameAndLocation()
    ensures Submit(NewDefaults()) == Err({Name, Location})
  {
    var d := NewDefaults();
    assert Issues(d) == {Name, Location};
  }

  /** Editing: the property's own values. */
  function EditDefaults(p: Property): (d: PropertyInput)
    ensures d.name == p.name && d.location == p.location && d.status == Some(p.status)
    ensures d.totalUnits == Int(p.totalUnits) && d.occupiedUnits == Int(p.occupiedUnits)
    ensures d.monthlyRevenue == Int(p.monthlyRevenue)
  {
    PropertyInput(p.name, p.location, Int(p.totalUnits), Int(p.occupiedUnits), Int(p.monthlyRevenue), Some(p.status))
  }

  /** A property that itself satisfies the schema and the unit check is saved unchanged
      when its edit form is submitted untouched. */
  lemma EditUntouchedKeepsValues(p: Property)
    requires |p.name| >= 2 && |p.location| >= 2 && p.status in PropertyStatuses
    requires 0 <= p.occupiedUnits <= p.totalUnits && p.monthlyRevenue >= 0
    ensures Submit(EditDefaults(p)) == Ok(PropertyValues(p.name, p.location, p.totalUnits,
      p.occupiedUnits, Int(p.monthlyRevenue), p.status))
  {
  }

  // ---------------------------------------------------------------------------
  // The list and the requests

  /** The listed properties: everything when `showArchived`, otherwise only those not archived. */
  function Visible(properties: seq<Property>, showArchived: bool): (r: seq<Property>)
    ensures forall p :: p in r <==> p in properties && (showArchived || !Truthy(p.archived))
  {
    Filter(properties, (p: Property) => showArchived || !Truthy(p.archived))
  }

  /** Hidden archive: no listed property is archived, and each unarchived one is listed. */
  lemma HiddenArchiveListsOnlyActive(properties: seq<Property>)
    ensures forall p :: p in Visible(properties, false) ==> !Truthy(p.archived)
    ensures forall p :: p in properties && !Truthy(p.archived) ==> p in Visible(properties, false)
  {
  }

  /** Shown archive: the list is the whole list, in its own order. */
  lemma ShownArchiveListsAll(properties: seq<Property>)
    ensures Visible(properties, true) == properties
  {
    FilterAll(properties, (p: Property) => true || !Truthy(p.archived));
  }

  /** The body of a create request: the submitted values with `archived: false`. */
  datatype CreateRequest = CreateRequest(values: PropertyValues, archived: bool)

  /** What the page does with submitted values: update the property being edited, or create. */
  datatype PropertyMutation = Update(id: int, values: PropertyValues) | Create(request: CreateRequest)

  function OnSubmit(editing: Option<Property>, values: PropertyValues): (m: PropertyMutation)
    ensures m.Update? <==> editing.Some?
    ensures m.Update? ==> m.id == editing.value.id && m.values == values
    ensures m.Create? ==> m.request.values == values && !m.request.archived
  {
    if editing.Some? then Update(editing.value.id, values) else Create(CreateRequest(values, false))
  }

  /** A property after the server has stored an archive request for it. */
  function Apply(p: Property, r: ArchiveRequest): (q: Property)
    requires r.id == p.id
    ensures q.archived == Some(r.archived)
    ensures q.(archived := p.archived) == p
  {
    p.(archived := Some(r.archived))
  }

  /** The button moves a property between the two lists, and pressing it twice restores
      what is listed: its visibility flips, then flips back. */
  lemma ArchiveToggleFlips(p: Property)
    ensures Truthy(Apply(p, ArchiveToggle(p.id, p.archived)).archived) <==> !Truthy(p.archived)
    ensures var q := Apply(p, ArchiveToggle(p.id, p.archived));
      Truthy(Apply(q, ArchiveToggle(q.id, q.archived)).archived) <==> Truthy(p.archived)
  {
  }
}

/** `maintenanceSchema` (`utils/maintenanceSchema.ts`), the validation of the maintenance
    request form, with its optional tenant (a NaN from an empty number field is read as
    "no tenant") and its optional attached documents. */
module MaintenanceSchema {
  import opened Common
  import opened Zod

  const Priorities: seq<string> := ["Critical", "High", "Medium", "Low"]
  const Statuses: seq<string> := ["Open", "Pending", "In Progress", "Completed"]

  /** One attached document as the form holds it; a missing key is `None`. */
  datatype DocumentInput = DocumentInput(
    id: Option<Num>, name: Option<string>, mimeType: Option<string>, size: Option<Num>, dataUrl: Option<string>)

  datatype Document = Document(id: Option<Num>, name: string, mimeType: string, size: Num, dataUrl: string)

  datatype MaintenanceInput = MaintenanceInput(
    title: string, propertyId: Num, tenantId: Option<Num>, priority: Option<string>, status: Option<string>,
    dateSubmitted: string, estimatedCost: Option<Num>, documents: Option<seq<DocumentInput>>)

  datatype MaintenanceValues = MaintenanceValues(
    title: string, propertyId: int, tenantId: Option<int>, priority: string, status: string,
    dateSubmitted: string, estimatedCost: Option<Num>, documents: Option<seq<Document>>)

  /** A document entry needs its name, type, size and data; its id is optional; the
      numbers must not be NaN. */
  function ParseDocument(d: DocumentInput): (r: Option<Document>)
    ensures r.Some? <==>
      d.name.Some? && d.mimeType.Some? && d.size.Some? && IsNumber(d.size.value) && d.dataUrl.Some?
      && (d.id.None? || IsNumber(d.id.value))
    ensures r.Some? ==> r.value == Document(d.id, d.name.value, d.mimeType.value, d.size.value, d.dataUrl.value)
  {
    if d.name.Some? && d.mimeType.Some? && d.size.Some? && IsNumber(d.size.value) && d.dataUrl.Some?
       && (d.id.None? || IsNumber(d.id.value))
    then Some(Document(d.id, d.name.value, d.mimeType.value, d.size.value, d.dataUrl.value))
    else None
  }

  /** The document array: accepted when every entry is, keeping their order. */
  function ParseDocuments(ds: seq<DocumentInput>): (r: Option<seq<Document>>)
    ensures r.Some? <==> forall k :: 0 <= k < |ds| ==> ParseDocument(ds[k]).Some?
    ensures r.Some? ==> |r.value| == |ds| && forall k :: 0 <= k < |ds| ==> Some(r.value[k]) == ParseDocument(ds[k])
  {
    if ds == [] then Some([])
    else
      match ParseDocument(ds[0])
      case None => None
      case Some(d) =>
        match ParseDocuments(ds[1..])
        case None => None
        case Some(rest) => Some([d] + rest)
  }

  /** The tenant: absent stays absent, NaN becomes absent, otherwise a positive integer.
      The outer `None` means the value is rejected. */
  function ParseTenantId(t: Option<Num>): (r: Option<Option<int>>)
    ensures r.Some? <==> t.None? || t.value.NaN? || PositiveInt(t.value)
    ensures r == Some(None) <==> t.None? || t.value.NaN?
    ensures r.Some? && r.value.Some? ==> t == Some(Int(r.value.value)) && r.value.value > 0
  {
    match t
    case None => Some(None)
    case Some(NaN) => Some(None)
    case Some(Int(v)) => if v > 0 then Some(Some(v)) else None
    case Some(Frac(_)) => None
  }

  /** The keys of the schema: the paths its issues are reported at. */
  datatype Field = Title | PropertyId | TenantId | Priority | Status | EstimatedCost | Documents

  const Fields: set<Field> := {Title, PropertyId, TenantId, Priority, Status, EstimatedCost, Documents}

  /** The check each key makes. */
  predicate Passes(i: MaintenanceInput, f: Field) {
    match f
    case Title => MinLength(i.title, 1)
    case PropertyId => PositiveInt(i.propertyId)
    case TenantId => ParseTenantId(i.tenantId).Some?
    case Priority => EnumOr(i.priority, Priorities, "Low").Some?
    case Status => EnumOr(i.status, Statuses, "Open").Some?
    case EstimatedCost => i.estimatedCost.None? || NonNegative(i.estimatedCost.value)
    case Documents => i.documents.None? || ParseDocuments(i.documents.value).Some?
  }

  /** The issues of one form: every key whose check fails, and no other. */
  function Issues(i: MaintenanceInput): (r: set<Field>)
    ensures Title in r <==> !Passes(i, Title)
    ensures PropertyId in r <==> !Passes(i, PropertyId)
    ensures TenantId in r <==> !Passes(i, TenantId)
    ensures Priority in r <==> !Passes(i, Priority)
    ensures Status in r <==> !Passes(i, Status)
    ensures EstimatedCost in r <==> !Passes(i, EstimatedCost)
    ensures Documents in r <==> !Passes(i, Documents)
  {
    set f | f in Fields && !Passes(i, f)
  }

  /** The parse: a non-empty title, a positive-integer property, an optional tenant (NaN
      read as none), priority defaulting to "Low" and status to "Open" (other values outside
      the enums refused), an optional non-negative cost and optional well-formed documents.
      A failed parse names exactly the failing fields. */
  function Parse(i: MaintenanceInput): (r: Result<MaintenanceValues, set<Field>>)
    ensures r.Ok? <==>
      && i.title != "" && PositiveInt(i.propertyId)
      && (i.tenantId.None? || i.tenantId.value.NaN? || PositiveInt(i.tenantId.value))
      && (i.priority.None? || i.priority.value in Priorities)
      && (i.status.None? || i.status.value in Statuses)
      && (i.estimatedCost.None? || NonNegative(i.estimatedCost.value))
      && (i.documents.None? || forall k :: 0 <= k < |i.documents.value| ==> ParseDocument(i.documents.value[k]).Some?)
    ensures r.Err? ==>
      && (Title in r.error <==> i.title == "")
      && (PropertyId in r.error <==> !PositiveInt(i.propertyId))
      && (TenantId in r.error <==> i.tenantId.Some? && !i.tenantId.value.NaN? && !PositiveInt(i.tenantId.value))
      && (Priority in r.error <==> i.priority.Some? && i.priority.value !in Priorities)
      && (Status in r.error <==> i.status.Some? && i.status.value !in Statuses)
      && (EstimatedCost in r.error <==> i.estimatedCost.Some? && !NonNegative(i.estimatedCost.value))
      && (Documents in r.error <==>
        i.documents.Some? && exists k :: 0 <= k < |i.documents.value| && ParseDocument(i.documents.value[k]).None?)
    ensures r.Ok? ==>
      && r.value.title == i.title && r.value.propertyId == i.propertyId.value
      && (r.value.tenantId.None? <==> i.tenantId.None? || i.tenantId.value.NaN?)
      && (r.value.tenantId.Some? ==> i.tenantId == Some(Int(r.value.tenantId.value)))
      && r.value.priority == i.priority.GetOr("Low") && r.value.status == i.status.GetOr("Open")
      && r.value.dateSubmitted == i.dateSubmitted && r.value.estimatedCost == i.estimatedCost
      && (r.value.documents.None? <==> i.documents.None?)
  {
    var issues := Issues(i);
    if issues == {} then
      Ok(MaintenanceValues(
        i.title, i.propertyId.value, ParseTenantId(i.tenantId).value,
        EnumOr(i.priority, Priorities, "Low").value, EnumOr(i.status, Statuses, "Open").value,
        i.dateSubmitted, i.estimatedCost,
        if i.documents.Some? then Some(ParseDocuments(i.documents.value).value) else None))
    else Err(issues)
  }

  function UnparseDocument(d: Document): DocumentInput {
    DocumentInput(d.id, Some(d.name), Some(d.mimeType), Some(d.size), Some(d.dataUrl))
  }

  function UnparseDocuments(us: seq<Document>): seq<DocumentInput> {
    seq(|us|, k requires 0 <= k < |us| => UnparseDocument(us[k]))
  }

  /** The form filled in with parsed values. */
  function Unparse(v: MaintenanceValues): MaintenanceInput {
    MaintenanceInput(
      v.title, Int(v.propertyId),
      if v.tenantId.Some? then Some(Int(v.tenantId.value)) else None,
      Some(v.priority), Some(v.status), v.dateSubmitted, v.estimatedCost,
      if v.documents.Some? then Some(UnparseDocuments(v.documents.value)) else None)
  }

  /** Re-reading parsed documents gives them back. */
  lemma {:induction false} DocumentsRoundTrip(ds: seq<DocumentInput>)
    requires ParseDocuments(ds).Some?
    ensures ParseDocuments(UnparseDocuments(ParseDocuments(ds).value)) == ParseDocuments(ds)
  {
    var us := ParseDocuments(ds).value;
    var back := UnparseDocuments(us);
    var r := ParseDocuments(back);
    assert forall k :: 0 <= k < |back| ==> ParseDocument(back[k]) == Some(us[k]);
    assert r.Some?;
    assert |r.value| == |us|;
    assert forall k :: 0 <= k < |us| ==> r.value[k] == us[k];
    assert r.value == us;
  }

  /** Parsed values are a fixed point: filling the form with them parses to the same values. */
  lemma ParseRoundTrip(i: MaintenanceInput)
    requires Parse(i).Ok?
    ensures Parse(Unparse(Parse(i).value)) == Parse(i)
  {
    var v := Parse(i).value;
    if i.documents.Some? {
      DocumentsRoundTrip(i.documents.value);
    }
  }
}

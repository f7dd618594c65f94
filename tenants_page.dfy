/** The tenants page (`pages/Tenants.tsx`): its CSV export of the listed tenants and the
    effect that turns a `?status=` link into filter updates. */
module TenantsPage {
  import opened Common
  import opened Text
  import opened Entities
  import Csv
  import opened TenantsData

  const CsvHeader: seq<string> := ["Name", "Unit", "Phone", "Rent", "Status", "Payment", "Property"]

  /** One data row: name, unit, phone, rent, status, payment status, and the property's
      name, or its id when the lookup fails. */
  function CsvRow(t: Tenant, propertyById: map<int, Property>): (row: seq<string>)
    ensures |row| == |CsvHeader|
    ensures row[0] == t.name && row[1] == t.unit && row[2] == t.phone
    ensures row[3] == IntToString(t.rentAmount) && row[4] == t.status && row[5] == t.paymentStatus
    ensures t.propertyId in propertyById ==> row[6] == propertyById[t.propertyId].name
    ensures t.propertyId !in propertyById ==> row[6] == IntToString(t.propertyId)
  {
    [ t.name, t.unit, t.phone, IntToString(t.rentAmount), t.status, t.paymentStatus,
      NameOrId(propertyById, t.propertyId, PropertyNameOf) ]
  }

  /** The header, then one row per tenant, in list order. */
  function CsvRows(tenants: seq<Tenant>, propertyById: map<int, Property>): (rows: seq<seq<string>>)
    ensures |rows| == |tenants| + 1
    ensures rows[0] == CsvHeader
    ensures forall i :: 0 <= i < |tenants| ==> rows[i + 1] == CsvRow(tenants[i], propertyById)
    ensures forall i :: 0 <= i < |rows| ==> |rows[i]| == |CsvHeader| == 7
  {
    Csv.Table(CsvHeader, tenants, t => CsvRow(t, propertyById))
  }

  /** `exportCSV`'s text for a list of tenants, which reads back as exactly its rows. */
  function CsvText(tenants: seq<Tenant>, propertyById: map<int, Property>): (text: string)
    ensures Csv.ReadRows(text) == Some(CsvRows(tenants, propertyById))
  {
    var rows := CsvRows(tenants, propertyById);
    Csv.ReadRowsRoundTrip(rows);
    Csv.Text(rows)
  }

  /** The `?status=` effect as the `setFilter` calls it makes: "Active" or "Inactive" sets
      that status and hides archived tenants; "Archived" clears the status and shows
      archived tenants; anything else, or no parameter, changes nothing. */
  function ApplyStatusParam(f: TenantsFilters, status: Option<string>): (r: TenantsFilters)
    ensures status == Some("Active") || status == Some("Inactive") ==> r == f.(status := status, showArchived := false)
    ensures status == Some("Archived") ==> r == f.(status := None, showArchived := true)
    ensures status != Some("Active") && status != Some("Inactive") && status != Some("Archived") ==> r == f
  {
    var f1 :=
      if status == Some("Active") || status == Some("Inactive") then
        SetFilter(SetFilter(f, SetStatus(status)), SetShowArchived(false))
      else f;
    if status == Some("Archived") then SetFilter(SetFilter(f1, SetStatus(None)), SetShowArchived(true))
    else f1
  }

  /** After an "Active" or "Inactive" link every listed tenant has that status and is not
      archived. */
  lemma StatusLinkLists(
    tenants: seq<Tenant>, f: TenantsFilters, propertyById: map<int, Property>, s: string, t: Tenant)
    requires s == "Active" || s == "Inactive"
    requires t in Filtered(tenants, ApplyStatusParam(f, Some(s)), propertyById)
    ensures t.status == s && !Truthy(t.archived)
  {
    FilteredMembership(tenants, ApplyStatusParam(f, Some(s)), propertyById, t);
  }

  /** After an "Archived" link the status filter no longer narrows the list: an archived
      tenant that passes the search and property tests is listed, whatever its status. */
  lemma ArchivedLinkLists(tenants: seq<Tenant>, f: TenantsFilters, propertyById: map<int, Property>, t: Tenant)
    requires t in tenants
    requires f.search != "" ==> SearchMatches(SearchFields(t, propertyById), f.search)
    requires IdSet(f.propertyId) ==> t.propertyId == f.propertyId.value
    ensures t in Filtered(tenants, ApplyStatusParam(f, Some("Archived")), propertyById)
  {
    FilteredMembership(tenants, ApplyStatusParam(f, Some("Archived")), propertyById, t);
  }
}

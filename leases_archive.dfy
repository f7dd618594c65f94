/** The leases archive page (`pages/LeasesArchive.tsx`): the archived leases among the
    hook's filtered list, their CSV and PDF table, and the restore request. The status
    column shows the computed status, not the stored one. */
module LeasesArchive {
  import opened Common
  import opened Text
  import opened Entities
  import opened LeasesData
  import Csv
  import opened PdfTable

  /** `filtered.filter((l) => l.archived)`. */
  function Archived(filtered: seq<Lease>): (r: seq<Lease>)
    ensures forall l :: l in r ==> l in filtered && Truthy(l.archived)
    ensures forall l :: l in filtered && Truthy(l.archived) ==> l in r
  {
    Filter(filtered, (l: Lease) => Truthy(l.archived))
  }

  /** The archive page lists a lease exactly when the hook's pipeline keeps it and it is
      archived. */
  lemma ArchivedMembership(
    leases: seq<Lease>, f: LeasesFilters, propertyById: map<int, Property>, tenantById: map<int, Tenant>,
    now: int, ms: DateMs, l: Lease)
    ensures l in Archived(Filtered(leases, f, propertyById, tenantById, now, ms))
        <==> l in leases && Keep(f, propertyById, tenantById, now, ms, l) && Truthy(l.archived)
  {
    FilteredMembership(leases, f, propertyById, tenantById, now, ms, l);
  }

  /** With the status filter on "Archived" the hook already lists archived leases only,
      so the archive page shows its whole list. */
  lemma ArchivedStatusKeepsAll(
    leases: seq<Lease>, f: LeasesFilters, propertyById: map<int, Property>, tenantById: map<int, Tenant>,
    now: int, ms: DateMs)
    requires f.status == Some("Archived")
    ensures var r := Filtered(leases, f, propertyById, tenantById, now, ms); Archived(r) == r
  {
    var r := Filtered(leases, f, propertyById, tenantById, now, ms);
    forall l | l in r ensures Truthy(l.archived) {
      FilteredArchiveAndStatus(leases, f, propertyById, tenantById, now, ms, l);
    }
    FilterAll(r, (l: Lease) => Truthy(l.archived));
  }

  /** Under the hook's initial filters the archive page lists nothing. */
  lemma InitiallyEmpty(leases: seq<Lease>, propertyById: map<int, Property>, tenantById: map<int, Tenant>, now: int, ms: DateMs)
    ensures Archived(Filtered(leases, InitialFilters, propertyById, tenantById, now, ms)) == []
  {
    var r := Archived(Filtered(leases, InitialFilters, propertyById, tenantById, now, ms));
    if r != [] {
      InitialHidesArchived(leases, propertyById, tenantById, now, ms, r[0]);
      assert false;
    }
  }

  /** The period cell: the two dates in the locale's format, joined by " - ". */
  function Period(l: Lease, localeDate: string -> string): string {
    localeDate(l.startDate) + " - " + localeDate(l.endDate)
  }

  // ---------------------------------------------------------------------------
  // CSV

  const CsvHeader: seq<string> := ["Property", "Tenant", "Unit", "Period", "Rent", "Status"]

  /** One data row; the last column is the status computed at `now`. */
  function CsvRow(
    l: Lease, propertyById: map<int, Property>, tenantById: map<int, Tenant>,
    now: int, ms: DateMs, localeDate: string -> string): (row: seq<string>)
    ensures |row| == |CsvHeader|
    ensures row[0] == NameOrId(propertyById, l.propertyId, PropertyNameOf) && row[1] == NameOrId(tenantById, l.tenantId, TenantNameOf)
    ensures row[2] == l.unit && row[3] == Period(l, localeDate) && row[4] == IntToString(l.rentAmount)
    ensures row[5] == ComputedStatus(l, now, ms)
  {
    [ NameOrId(propertyById, l.propertyId, PropertyNameOf), NameOrId(tenantById, l.tenantId, TenantNameOf), l.unit, Period(l, localeDate),
      IntToString(l.rentAmount), ComputedStatus(l, now, ms) ]
  }

  /** The header, then one row per archived lease, in list order. */
  function CsvRows(
    filtered: seq<Lease>, propertyById: map<int, Property>, tenantById: map<int, Tenant>,
    now: int, ms: DateMs, localeDate: string -> string): (rows: seq<seq<string>>)
    ensures var a := Archived(filtered);
      && |rows| == |a| + 1
      && rows[0] == CsvHeader
      && (forall i :: 0 <= i < |a| ==> rows[i + 1] == CsvRow(a[i], propertyById, tenantById, now, ms, localeDate))
      && (forall i :: 0 <= i < |rows| ==> |rows[i]| == |CsvHeader| == 6)
  {
    Csv.Table(CsvHeader, Archived(filtered), l => CsvRow(l, propertyById, tenantById, now, ms, localeDate))
  }

  /** `exportCSV`'s text, which reads back as exactly its rows. */
  function CsvText(
    filtered: seq<Lease>, propertyById: map<int, Property>, tenantById: map<int, Tenant>,
    now: int, ms: DateMs, localeDate: string -> string): (text: string)
    ensures Csv.ReadRows(text) == Some(CsvRows(filtered, propertyById, tenantById, now, ms, localeDate))
  {
    var rows := CsvRows(filtered, propertyById, tenantById, now, ms, localeDate);
    Csv.ReadRowsRoundTrip(rows);
    Csv.Text(rows)
  }

  // ---------------------------------------------------------------------------
  // PDF

  const PdfHeaders: seq<string> := ["Property", "Tenant", "Unit", "Period", "Rent", "Status"]
  const PdfWidths: seq<int> := [120, 120, 70, 140, 80, 80]
  /** The PDF lists at most this many archived leases. */
  const PdfRowCap: nat := 50

  /** One line of the PDF table; the rent shows as "KES " and its locale rendering. */
  function PdfCells(
    l: Lease, propertyById: map<int, Property>, tenantById: map<int, Tenant>,
    now: int, ms: DateMs, localeNumber: int -> string, localeDate: string -> string): (cells: seq<string>)
    ensures |cells| == |PdfHeaders|
    ensures cells[0] == NameOrId(propertyById, l.propertyId, PropertyNameOf) && cells[1] == NameOrId(tenantById, l.tenantId, TenantNameOf)
    ensures cells[2] == l.unit && cells[3] == Period(l, localeDate)
    ensures cells[4] == "KES " + localeNumber(l.rentAmount)
    ensures cells[5] == ComputedStatus(l, now, ms)
  {
    [ NameOrId(propertyById, l.propertyId, PropertyNameOf), NameOrId(tenantById, l.tenantId, TenantNameOf), l.unit, Period(l, localeDate),
      "KES " + localeNumber(l.rentAmount), ComputedStatus(l, now, ms) ]
  }

  /** The rows the PDF lists: the first (at most) 50 archived leases, in list order. */
  function PdfRows(
    filtered: seq<Lease>, propertyById: map<int, Property>, tenantById: map<int, Tenant>,
    now: int, ms: DateMs, localeNumber: int -> string, localeDate: string -> string): (rows: seq<seq<string>>)
    ensures var a := Archived(filtered);
      && |rows| == Min(|a|, PdfRowCap) <= PdfRowCap
      && forall i :: 0 <= i < |rows| ==>
           rows[i] == PdfCells(a[i], propertyById, tenantById, now, ms, localeNumber, localeDate)
  {
    var a := Archived(filtered);
    var items := a[..Min(|a|, PdfRowCap)];
    seq(|items|, i requires 0 <= i < |items| =>
      PdfCells(items[i], propertyById, tenantById, now, ms, localeNumber, localeDate))
  }

  /** `exportPDF`'s table: the header line, then the first (at most) 50 archived leases,
      placed by the column and line cursors. */
  method ExportPdf(
    filtered: seq<Lease>, propertyById: map<int, Property>, tenantById: map<int, Tenant>,
    now: int, ms: DateMs, localeNumber: int -> string, localeDate: string -> string)
    returns (lines: seq<seq<TextCmd>>)
    ensures |lines| == Min(|Archived(filtered)|, PdfRowCap) + 1
    ensures forall k :: 0 <= k < |lines| ==> |lines[k]| == |PdfHeaders|
    ensures forall c :: 0 <= c < |PdfHeaders| ==> lines[0][c] == TextCmd(PdfHeaders[c], ColumnX(PdfWidths, c), HeaderY)
    ensures forall i, c :: 0 <= i < |lines| - 1 && 0 <= c < |PdfHeaders| ==>
      lines[i + 1][c] == TextCmd(
        PdfCells(Archived(filtered)[i], propertyById, tenantById, now, ms, localeNumber, localeDate)[c],
        ColumnX(PdfWidths, c), LineY(i + 1))
  {
    var rows := PdfRows(filtered, propertyById, tenantById, now, ms, localeNumber, localeDate);
    lines := LayoutTable(PdfHeaders, PdfWidths, rows);
  }
}

/** The maintenance exports (`utils/maintenanceExport.ts`): the CSV of the listed requests
    and the PDF table of at most the first 50 of them. `localeDate` stands for
    `new Date(s).toLocaleDateString()` and `localeNumber` for `n.toLocaleString()`. */
module MaintenanceExport {
  import opened Common
  import opened Text
  import opened Entities
  import Csv
  import opened PdfTable

  /** The tenant cell: "-" when the request has no (or a zero) tenant id, otherwise the
      tenant's name, or the id when the lookup fails. */
  function TenantCell(r: MaintenanceRequest, tenantById: map<int, Tenant>): (cell: string)
    ensures !IdSet(r.tenantId) ==> cell == "-"
    ensures IdSet(r.tenantId) && r.tenantId.value in tenantById ==> cell == tenantById[r.tenantId.value].name
    ensures IdSet(r.tenantId) && r.tenantId.value !in tenantById ==> cell == IntToString(r.tenantId.value)
  {
    if IdSet(r.tenantId) then NameOrId(tenantById, r.tenantId.value, TenantNameOf)
    else "-"
  }

  // ---------------------------------------------------------------------------
  // CSV

  const CsvHeader: seq<string> := ["Title", "Property", "Tenant", "Priority", "Status", "Date", "Est. Cost"]

  /** One data row of the CSV, in header order; the cost is "-" when absent and its
      decimal digits otherwise. */
  function CsvRow(
    r: MaintenanceRequest, propertyById: map<int, Property>, tenantById: map<int, Tenant>,
    localeDate: string -> string): (row: seq<string>)
    ensures |row| == |CsvHeader|
    ensures row[0] == r.title
    ensures row[1] == NameOrId(propertyById, r.propertyId, PropertyNameOf) && row[2] == TenantCell(r, tenantById)
    ensures row[3] == r.priority && row[4] == r.status && row[5] == localeDate(r.dateSubmitted)
    ensures r.estimatedCost.None? ==> row[6] == "-"
    ensures r.estimatedCost.Some? ==> row[6] == IntToString(r.estimatedCost.value)
  {
    [ r.title,
      NameOrId(propertyById, r.propertyId, PropertyNameOf),
      TenantCell(r, tenantById),
      r.priority,
      r.status,
      localeDate(r.dateSubmitted),
      if r.estimatedCost.Some? then IntToString(r.estimatedCost.value) else "-" ]
  }

  /** The rows of the CSV: the header, then one row per request, in list order. */
  function CsvRows(
    requests: seq<MaintenanceRequest>, propertyById: map<int, Property>, tenantById: map<int, Tenant>,
    localeDate: string -> string): (rows: seq<seq<string>>)
    ensures |rows| == |requests| + 1
    ensures rows[0] == CsvHeader
    ensures forall i :: 0 <= i < |requests| ==> rows[i + 1] == CsvRow(requests[i], propertyById, tenantById, localeDate)
    ensures forall i :: 0 <= i < |rows| ==> |rows[i]| == |CsvHeader| == 7
  {
    Csv.Table(CsvHeader, requests, r => CsvRow(r, propertyById, tenantById, localeDate))
  }

  /** `exportMaintenanceCSV`'s text, which reads back as exactly its rows. */
  function CsvText(
    requests: seq<MaintenanceRequest>, propertyById: map<int, Property>, tenantById: map<int, Tenant>,
    localeDate: string -> string): (text: string)
    ensures Csv.ReadRows(text) == Some(CsvRows(requests, propertyById, tenantById, localeDate))
  {
    var rows := CsvRows(requests, propertyById, tenantById, localeDate);
    Csv.ReadRowsRoundTrip(rows);
    Csv.Text(rows)
  }

  // ---------------------------------------------------------------------------
  // PDF

  const PdfHeaders: seq<string> := ["Title", "Property", "Tenant", "Priority", "Status", "Date", "Cost"]
  const PdfWidths: seq<int> := [140, 120, 120, 70, 80, 90, 80]
  /** The PDF lists at most this many requests. */
  const PdfRowCap: nat := 50

  /** One line of the PDF table; the cost shows as "KES " and its locale rendering, or "-". */
  function PdfCells(
    r: MaintenanceRequest, propertyById: map<int, Property>, tenantById: map<int, Tenant>,
    localeNumber: int -> string, localeDate: string -> string): (cells: seq<string>)
    ensures |cells| == |PdfHeaders|
    ensures cells[0] == r.title
    ensures cells[1] == NameOrId(propertyById, r.propertyId, PropertyNameOf) && cells[2] == TenantCell(r, tenantById)
    ensures cells[3] == r.priority && cells[4] == r.status && cells[5] == localeDate(r.dateSubmitted)
    ensures r.estimatedCost.None? ==> cells[6] == "-"
    ensures r.estimatedCost.Some? ==> cells[6] == "KES " + localeNumber(r.estimatedCost.value)
  {
    [ r.title,
      NameOrId(propertyById, r.propertyId, PropertyNameOf),
      TenantCell(r, tenantById),
      r.priority,
      r.status,
      localeDate(r.dateSubmitted),
      if r.estimatedCost.Some? then "KES " + localeNumber(r.estimatedCost.value) else "-" ]
  }

  /** The rows the PDF lists: the cells of the first (at most) 50 requests, in list order. */
  function PdfRows(
    requests: seq<MaintenanceRequest>, propertyById: map<int, Property>, tenantById: map<int, Tenant>,
    localeNumber: int -> string, localeDate: string -> string): (rows: seq<seq<string>>)
    ensures |rows| == Min(|requests|, PdfRowCap) <= PdfRowCap
    ensures forall i :: 0 <= i < |rows| ==>
      rows[i] == PdfCells(requests[i], propertyById, tenantById, localeNumber, localeDate)
  {
    var items := requests[..Min(|requests|, PdfRowCap)];
    seq(|items|, i requires 0 <= i < |items| => PdfCells(items[i], propertyById, tenantById, localeNumber, localeDate))
  }

  /** `exportMaintenancePDF`'s table: the header line, then the first (at most) 50
      requests in list order, placed by the column and line cursors. */
  method ExportPdf(
    requests: seq<MaintenanceRequest>, propertyById: map<int, Property>, tenantById: map<int, Tenant>,
    localeNumber: int -> string, localeDate: string -> string)
    returns (lines: seq<seq<TextCmd>>)
    ensures |lines| == Min(|requests|, PdfRowCap) + 1
    ensures forall k :: 0 <= k < |lines| ==> |lines[k]| == |PdfHeaders|
    ensures forall c :: 0 <= c < |PdfHeaders| ==> lines[0][c] == TextCmd(PdfHeaders[c], ColumnX(PdfWidths, c), HeaderY)
    ensures forall i, c :: 0 <= i < |lines| - 1 && 0 <= c < |PdfHeaders| ==>
      lines[i + 1][c] == TextCmd(PdfCells(requests[i], propertyById, tenantById, localeNumber, localeDate)[c],
                                 ColumnX(PdfWidths, c), LineY(i + 1))
  {
    var rows := PdfRows(requests, propertyById, tenantById, localeNumber, localeDate);
    lines := LayoutTable(PdfHeaders, PdfWidths, rows);
  }
}

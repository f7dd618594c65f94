/** The payments exports (`utils/paymentsExport.ts`): the CSV of the filtered payments and
    the PDF table of at most the first 40 of them. Date and number formatting for the
    locale are parameters: `localeDateTime` for `new Date(s).toLocaleString()` and
    `localeNumber` for `n.toLocaleString()`. */
module PaymentsExport {
  import opened Common
  import opened Text
  import opened Entities
  import Csv
  import opened PdfTable

  // ---------------------------------------------------------------------------
  // CSV

  const CsvHeader: seq<string> := ["Tenant", "Property", "Lease", "Amount", "Method", "Date", "Status", "Reference"]

  /** The property id a payment is filed under: its lease's property, or -1 when the lease
      is not known. */
  function PropertyIdOf(p: Payment, leaseById: map<int, Lease>): (id: int)
    ensures p.leaseId in leaseById ==> id == leaseById[p.leaseId].propertyId
    ensures p.leaseId !in leaseById ==> id == -1
  {
    if p.leaseId in leaseById then leaseById[p.leaseId].propertyId else -1
  }

  /** One data row of the CSV, in header order: the tenant's name or, failing the lookup,
      the tenant id; the name of the lease's property, or "-" when the lease or the property
      is unknown (a missing lease is looked up as property -1); then the lease id, the
      amount, the method, the date, the status and the reference. */
  function CsvRow(
    p: Payment, tenantById: map<int, Tenant>, leaseById: map<int, Lease>, propertyById: map<int, Property>,
    localeDateTime: string -> string): (row: seq<string>)
    ensures |row| == |CsvHeader|
    ensures p.tenantId in tenantById ==> row[0] == tenantById[p.tenantId].name
    ensures p.tenantId !in tenantById ==> row[0] == IntToString(p.tenantId)
    ensures p.leaseId in leaseById && leaseById[p.leaseId].propertyId in propertyById ==>
      row[1] == propertyById[leaseById[p.leaseId].propertyId].name
    ensures p.leaseId in leaseById && leaseById[p.leaseId].propertyId !in propertyById ==> row[1] == "-"
    ensures p.leaseId !in leaseById && -1 !in propertyById ==> row[1] == "-"
    ensures row[2] == IntToString(p.leaseId) && row[3] == IntToString(p.amount)
    ensures row[4] == p.payMethod && row[5] == localeDateTime(p.date)
    ensures row[6] == p.status && row[7] == p.reference
  {
    [ NameOrId(tenantById, p.tenantId, TenantNameOf),
      PropertyName(propertyById, PropertyIdOf(p, leaseById)).GetOr("-"),
      IntToString(p.leaseId),
      IntToString(p.amount),
      p.payMethod,
      localeDateTime(p.date),
      p.status,
      p.reference ]
  }

  /** The rows of the CSV: the header, then one row per payment, in list order. */
  function CsvRows(
    filtered: seq<Payment>, tenantById: map<int, Tenant>, leaseById: map<int, Lease>,
    propertyById: map<int, Property>, localeDateTime: string -> string): (rows: seq<seq<string>>)
    ensures |rows| == |filtered| + 1
    ensures rows[0] == CsvHeader
    ensures forall i :: 0 <= i < |filtered| ==>
      rows[i + 1] == CsvRow(filtered[i], tenantById, leaseById, propertyById, localeDateTime)
    ensures forall i :: 0 <= i < |rows| ==> |rows[i]| == |CsvHeader| == 8
  {
    Csv.Table(CsvHeader, filtered, p => CsvRow(p, tenantById, leaseById, propertyById, localeDateTime))
  }

  /** `exportPaymentsCSV`'s text: every field quoted with its quotes doubled, fields joined
      by ',' and rows by '\n'. The text reads back as exactly the rows it was made from. */
  function CsvText(
    filtered: seq<Payment>, tenantById: map<int, Tenant>, leaseById: map<int, Lease>,
    propertyById: map<int, Property>, localeDateTime: string -> string): (text: string)
    ensures Csv.ReadRows(text) == Some(CsvRows(filtered, tenantById, leaseById, propertyById, localeDateTime))
  {
    var rows := CsvRows(filtered, tenantById, leaseById, propertyById, localeDateTime);
    Csv.ReadRowsRoundTrip(rows);
    Csv.Text(rows)
  }

  // ---------------------------------------------------------------------------
  // PDF

  const PdfHeaders: seq<string> := ["Tenant", "Property", "Lease", "Amount", "Method", "Date", "Status", "Ref"]
  const PdfWidths: seq<int> := [110, 110, 50, 80, 80, 120, 70, 80]
  /** The PDF lists at most this many payments. */
  const PdfRowCap: nat := 40

  /** One line of the PDF table: the tenant name or id, the property name or "-", the lease
      as "#id", the amount as "KES " and its locale rendering, method, date, status, reference. */
  function PdfCells(
    p: Payment, tenantById: map<int, Tenant>, leaseById: map<int, Lease>, propertyById: map<int, Property>,
    localeNumber: int -> string, localeDateTime: string -> string): (cells: seq<string>)
    ensures |cells| == |PdfHeaders|
    ensures cells[0] == NameOrId(tenantById, p.tenantId, TenantNameOf)
    ensures cells[2] == "#" + IntToString(p.leaseId)
    ensures cells[1] == PropertyName(propertyById, PropertyIdOf(p, leaseById)).GetOr("-")
    ensures cells[3] == "KES " + localeNumber(p.amount)
    ensures cells[4] == p.payMethod && cells[5] == localeDateTime(p.date)
    ensures cells[6] == p.status && cells[7] == p.reference
  {
    [ NameOrId(tenantById, p.tenantId, TenantNameOf),
      PropertyName(propertyById, PropertyIdOf(p, leaseById)).GetOr("-"),
      "#" + IntToString(p.leaseId),
      "KES " + localeNumber(p.amount),
      p.payMethod,
      localeDateTime(p.date),
      p.status,
      p.reference ]
  }

  /** The rows the PDF lists: the cells of the first (at most) 40 payments, in list order. */
  function PdfRows(
    filtered: seq<Payment>, tenantById: map<int, Tenant>, leaseById: map<int, Lease>,
    propertyById: map<int, Property>, localeNumber: int -> string, localeDateTime: string -> string)
    : (rows: seq<seq<string>>)
    ensures |rows| == Min(|filtered|, PdfRowCap) <= PdfRowCap
    ensures forall r :: 0 <= r < |rows| ==>
      rows[r] == PdfCells(filtered[r], tenantById, leaseById, propertyById, localeNumber, localeDateTime)
  {
    var items := filtered[..Min(|filtered|, PdfRowCap)];
    seq(|items|, i requires 0 <= i < |items| =>
      PdfCells(items[i], tenantById, leaseById, propertyById, localeNumber, localeDateTime))
  }

  /** `exportPaymentsPDF`'s table: the header line, then the first (at most) 40 payments
      in list order, each cell placed by the column cursor and each line 16 points below
      the one before. */
  method ExportPdf(
    filtered: seq<Payment>, tenantById: map<int, Tenant>, leaseById: map<int, Lease>,
    propertyById: map<int, Property>, localeNumber: int -> string, localeDateTime: string -> string)
    returns (lines: seq<seq<TextCmd>>)
    ensures |lines| == Min(|filtered|, PdfRowCap) + 1
    ensures forall k :: 0 <= k < |lines| ==> |lines[k]| == |PdfHeaders|
    ensures forall c :: 0 <= c < |PdfHeaders| ==> lines[0][c] == TextCmd(PdfHeaders[c], ColumnX(PdfWidths, c), HeaderY)
    ensures forall r, c :: 0 <= r < |lines| - 1 && 0 <= c < |PdfHeaders| ==>
      lines[r + 1][c] == TextCmd(PdfCells(filtered[r], tenantById, leaseById, propertyById, localeNumber, localeDateTime)[c],
                                 ColumnX(PdfWidths, c), LineY(r + 1))
  {
    var rows := PdfRows(filtered, tenantById, leaseById, propertyById, localeNumber, localeDateTime);
    lines := LayoutTable(PdfHeaders, PdfWidths, rows);
  }
}

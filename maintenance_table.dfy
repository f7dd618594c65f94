/** The maintenance table (`components/maintenance/MaintenanceTable.tsx`): its expanded
    rows, the badge colours for a status and a priority, and the values its cells and
    actions use. `localeNumber` stands for `n.toLocaleString()`. */
module MaintenanceTable {
  import opened Common
  import opened Entities
  import opened IdSets
  import MaintenanceExport

  const Green: string := "bg-green-100 text-green-800"
  const Blue: string := "bg-blue-100 text-blue-800"
  const Yellow: string := "bg-yellow-100 text-yellow-800"
  const Gray: string := "bg-gray-100 text-gray-800"
  const Red: string := "bg-red-100 text-red-800"
  const Orange: string := "bg-orange-100 text-orange-800"

  /** `statusClass`: green exactly for "Completed", blue for "In Progress", yellow for
      "Pending", gray for anything else (so "Open"). */
  function StatusClass(status: string): (c: string)
    ensures c == Green <==> status == "Completed"
    ensures c == Blue <==> status == "In Progress"
    ensures c == Yellow <==> status == "Pending"
    ensures c == Gray <==> status != "Completed" && status != "In Progress" && status != "Pending"
  {
    if status == "Completed" then Green
    else if status == "In Progress" then Blue
    else if status == "Pending" then Yellow
    else Gray
  }

  /** `priorityClass`: red exactly for "Critical", orange for "High", yellow for
      "Medium", green for anything else (so "Low"). */
  function PriorityClass(priority: string): (c: string)
    ensures c == Red <==> priority == "Critical"
    ensures c == Orange <==> priority == "High"
    ensures c == Yellow <==> priority == "Medium"
    ensures c == Green <==> priority != "Critical" && priority != "High" && priority != "Medium"
  {
    if priority == "Critical" then Red
    else if priority == "High" then Orange
    else if priority == "Medium" then Yellow
    else Green
  }

  /** The table's expanded rows. */
  class Table {
    var expanded: set<int>

    constructor()
      ensures expanded == {}
    {
      expanded := {};
    }

    /** `toggle(id)`: copy the set, delete `id` if present, add it otherwise. */
    method Toggle(id: int)
      modifies this
      ensures expanded == Toggled(old(expanded), id)
    {
      var next := expanded;
      if id in next {
        next := next - {id};
      } else {
        next := next + {id};
      }
      expanded := next;
    }
  }

  /** The cost line of the detail row: "-" when there is no estimate, otherwise "KES " and
      the estimate's locale rendering (an estimate of 0 included). */
  function CostLine(r: MaintenanceRequest, localeNumber: int -> string): (line: string)
    ensures r.estimatedCost.None? ==> line == "-"
    ensures r.estimatedCost.Some? ==> |line| >= 4 && line[..4] == "KES " && line[4..] == localeNumber(r.estimatedCost.value)
  {
    if r.estimatedCost.Some? then "KES " + localeNumber(r.estimatedCost.value) else "-"
  }

  /** The table shows a request's property, tenant and cost exactly as the PDF export
      prints them. */
  lemma CellsAgreeWithPdf(
    r: MaintenanceRequest, propertyById: map<int, Property>, tenantById: map<int, Tenant>,
    localeNumber: int -> string, localeDate: string -> string)
    ensures var cells := MaintenanceExport.PdfCells(r, propertyById, tenantById, localeNumber, localeDate);
      && cells[1] == NameOrId(propertyById, r.propertyId, PropertyNameOf)
      && cells[2] == MaintenanceExport.TenantCell(r, tenantById)
      && cells[6] == CostLine(r, localeNumber)
  {
  }
}

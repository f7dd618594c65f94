/** The sidebar's badges (`hooks/useSidebarCounts.ts`): the number of records of each kind
    that are not archived, and a combined loading flag. */
module SidebarCounts {
  import opened Common
  import opened Entities
  import TenantsData

  /** The test `(x) => !x.archived`, for records whose flag `archived` reads. */
  function Active<T>(archived: T -> Option<bool>): T -> bool {
    (x: T) => !Truthy(archived(x))
  }

  /** `arr.filter((x) => !x.archived).length`. */
  function ActiveCount<T>(arr: seq<T>, archived: T -> Option<bool>): (n: nat)
    ensures n <= |arr|
    ensures arr == [] ==> n == 0
  {
    Count(arr, Active(archived))
  }

  /** The active records and the archived ones add up to all records. */
  lemma ActivePlusArchived<T>(arr: seq<T>, archived: T -> Option<bool>)
    ensures ActiveCount(arr, archived) + Count(arr, (x: T) => Truthy(archived(x))) == |arr|
  {
    var active := Active(archived);
    CountSplit(arr, active);
    FilterExt(arr, (x: T) => !active(x), (x: T) => Truthy(archived(x)));
  }

  /** One query's state: its data, absent until loaded, and whether it is loading. */
  datatype Query<T> = Query(data: Option<seq<T>>, isLoading: bool)

  datatype Counts = Counts(tenants: nat, leases: nat, payments: nat, maintenance: nat, isLoading: bool)

  function TenantArchived(t: Tenant): Option<bool> { t.archived }
  function LeaseArchived(l: Lease): Option<bool> { l.archived }
  function PaymentArchived(p: Payment): Option<bool> { p.archived }
  function RequestArchived(r: MaintenanceRequest): Option<bool> { r.archived }

  /** `useSidebarCounts`: missing data counts as an empty list; the flag is set while any
      of the four queries is loading. */
  function SidebarCounts(
    tenantsQ: Query<Tenant>, leasesQ: Query<Lease>, paymentsQ: Query<Payment>,
    maintenanceQ: Query<MaintenanceRequest>): (c: Counts)
    ensures c.tenants == ActiveCount(tenantsQ.data.GetOr([]), TenantArchived)
    ensures c.leases == ActiveCount(leasesQ.data.GetOr([]), LeaseArchived)
    ensures c.payments == ActiveCount(paymentsQ.data.GetOr([]), PaymentArchived)
    ensures c.maintenance == ActiveCount(maintenanceQ.data.GetOr([]), RequestArchived)
    ensures tenantsQ.data.None? ==> c.tenants == 0
    ensures leasesQ.data.None? ==> c.leases == 0
    ensures paymentsQ.data.None? ==> c.payments == 0
    ensures maintenanceQ.data.None? ==> c.maintenance == 0
    ensures c.isLoading <==> tenantsQ.isLoading || leasesQ.isLoading || paymentsQ.isLoading || maintenanceQ.isLoading
  {
    Counts(
      ActiveCount(tenantsQ.data.GetOr([]), TenantArchived),
      ActiveCount(leasesQ.data.GetOr([]), LeaseArchived),
      ActiveCount(paymentsQ.data.GetOr([]), PaymentArchived),
      ActiveCount(maintenanceQ.data.GetOr([]), RequestArchived),
      tenantsQ.isLoading || leasesQ.isLoading || paymentsQ.isLoading || maintenanceQ.isLoading)
  }

  /** The tenants badge agrees with the tenants page as it first opens: the number of
      tenants listed under the initial filters is the active count. */
  lemma TenantsBadgeMatchesPage(tenants: seq<Tenant>, propertyById: map<int, Property>)
    ensures |TenantsData.Filtered(tenants, TenantsData.InitialFilters, propertyById)| == ActiveCount(tenants, TenantArchived)
  {
    var f := TenantsData.InitialFilters;
    var keep := (t: Tenant) => TenantsData.Keep(f, propertyById, t);
    var active := (t: Tenant) => !Truthy(TenantArchived(t));
    var r := TenantsData.Filtered(tenants, f, propertyById);
    assert multiset(r) == multiset(Filter(tenants, active)) by {
      TenantsData.FilteredSpec(tenants, f, propertyById);
      FilterExt(tenants, keep, active);
      forall t ensures multiset(r)[t] == multiset(Filter(tenants, active))[t] {
        FilterMultiset(tenants, active, t);
      }
    }
    assert |r| == |multiset(r)| == |multiset(Filter(tenants, active))| == |Filter(tenants, active)|;
    FilterExt(tenants, active, Active(TenantArchived));
  }
}

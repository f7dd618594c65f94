/** The tenants archive page (`pages/TenantsArchive.tsx`): the archived tenants among the
    hook's filtered list, their CSV, and the restore request. */
module TenantsArchive {
  import opened Common
  import opened Entities
  import opened Text
  import opened TenantsData
  import TenantsPage
  import Csv

  /** `filtered.filter((t) => t.archived)`. */
  function Archived(filtered: seq<Tenant>): (r: seq<Tenant>)
    ensures forall t :: t in r ==> t in filtered && Truthy(t.archived)
    ensures forall t :: t in filtered && Truthy(t.archived) ==> t in r
  {
    Filter(filtered, (t: Tenant) => Truthy(t.archived))
  }

  /** The archive page lists a tenant exactly when the hook's pipeline keeps it and it is
      archived, in the pipeline's order. */
  lemma ArchivedMembership(tenants: seq<Tenant>, f: TenantsFilters, propertyById: map<int, Property>, t: Tenant)
    ensures t in Archived(Filtered(tenants, f, propertyById))
        <==> t in tenants && Keep(f, propertyById, t) && Truthy(t.archived)
  {
    FilteredMembership(tenants, f, propertyById, t);
  }

  // ---------------------------------------------------------------------------
  // The filter states the page can reach

  /** A control of the page's filter bar: a `setFilter` call, or Reset. */
  datatype BarAction = Set(u: FilterUpdate) | Reset

  /** The bar has controls for the search, the status, the property and the sort key, and
      none for `showArchived`. */
  predicate OnBar(a: BarAction) {
    a.Set? ==> !a.u.SetShowArchived?
  }

  /** The filter state after a sequence of bar actions, from the hook's initial state. */
  function Reach(actions: seq<BarAction>): TenantsFilters
    decreases |actions|
  {
    if actions == [] then InitialFilters
    else
      var f := Reach(actions[..|actions| - 1]);
      match actions[|actions| - 1]
      case Set(u) => SetFilter(f, u)
      case Reset => ResetFilters()
  }

  /** No sequence of bar actions turns `showArchived` on. */
  lemma {:induction false} ReachHidesArchived(actions: seq<BarAction>)
    requires forall i :: 0 <= i < |actions| ==> OnBar(actions[i])
    ensures !Reach(actions).showArchived
  {
    if actions != [] {
      var init := actions[..|actions| - 1];
      assert forall i :: 0 <= i < |init| ==> init[i] == actions[i];
      ReachHidesArchived(init);
    }
  }

  /** As written, the page takes its list from its own instance of the tenants hook, which
      drops archived tenants before the page keeps only archived ones: in every filter state
      the page can reach, the archive lists nothing. */
  lemma AlwaysEmpty(tenants: seq<Tenant>, actions: seq<BarAction>, propertyById: map<int, Property>)
    requires forall i :: 0 <= i < |actions| ==> OnBar(actions[i])
    ensures Archived(Filtered(tenants, Reach(actions), propertyById)) == []
  {
    ReachHidesArchived(actions);
    var r := Archived(Filtered(tenants, Reach(actions), propertyById));
    if r != [] {
      FilteredMembership(tenants, Reach(actions), propertyById, r[0]);
      assert false;
    }
  }

  // ---------------------------------------------------------------------------
  // The archive as its title describes it

  /** The page's filters with archived tenants included, as the archive needs. */
  function ArchiveFilters(f: TenantsFilters): (r: TenantsFilters)
    ensures r.showArchived
    ensures r.search == f.search && r.status == f.status && r.propertyId == f.propertyId && r.sortBy == f.sortBy
  {
    f.(showArchived := true)
  }

  /** The archive list: the archived tenants among those the hook keeps under the archive
      filters, in the hook's order. */
  function ArchiveList(tenants: seq<Tenant>, f: TenantsFilters, propertyById: map<int, Property>): seq<Tenant> {
    Archived(Filtered(tenants, ArchiveFilters(f), propertyById))
  }

  /** The archive lists a tenant exactly when it is archived and passes the bar's search,
      status and property filters. */
  lemma ArchiveListMembership(tenants: seq<Tenant>, f: TenantsFilters, propertyById: map<int, Property>, t: Tenant)
    ensures t in ArchiveList(tenants, f, propertyById) <==>
      && t in tenants && Truthy(t.archived)
      && (f.search != "" ==> SearchMatches(SearchFields(t, propertyById), f.search))
      && (StrSet(f.status) ==> t.status == f.status.value)
      && (IdSet(f.propertyId) ==> t.propertyId == f.propertyId.value)
  {
    ArchivedMembership(tenants, ArchiveFilters(f), propertyById, t);
  }

  /** After a reset every archived tenant is listed, where the page as written lists none. */
  lemma ArchiveListAfterReset(tenants: seq<Tenant>, propertyById: map<int, Property>, t: Tenant)
    requires t in tenants && Truthy(t.archived)
    ensures t in ArchiveList(tenants, ResetFilters(), propertyById)
    ensures t !in Archived(Filtered(tenants, ResetFilters(), propertyById))
  {
    ArchiveListMembership(tenants, ResetFilters(), propertyById, t);
    AlwaysEmpty(tenants, [Reset], propertyById);
  }

  /** `exportCSV`: the tenants CSV over the archived list only. */
  function CsvText(filtered: seq<Tenant>, propertyById: map<int, Property>): (text: string)
    ensures Csv.ReadRows(text) == Some(TenantsPage.CsvRows(Archived(filtered), propertyById))
  {
    TenantsPage.CsvText(Archived(filtered), propertyById)
  }
}

/** The tenants list hook (`hooks/useTenantsData.ts`): filter state with its defaults
    and the `filtered` pipeline. */
module TenantsData {
  import opened Common
  import opened Text
  import opened Entities
  import opened StableSort

  // ---------------------------------------------------------------------------
  // Filter state

  datatype TenantsFilters = TenantsFilters(
    search: string,
    status: Option<string>,
    propertyId: Option<int>,
    sortBy: string,
    showArchived: bool)

  /** The state the hook starts from. */
  const InitialFilters: TenantsFilters := TenantsFilters("", None, None, "name", false)

  /** One `setFilter(key, value)` call. */
  datatype FilterUpdate =
    | SetSearch(search: string)
    | SetStatus(status: Option<string>)
    | SetPropertyId(propertyId: Option<int>)
    | SetSortBy(sortBy: string)
    | SetShowArchived(showArchived: bool)

  /** `{ ...prev, [key]: value }`: the named key takes the value, every other key keeps its own. */
  function SetFilter(f: TenantsFilters, u: FilterUpdate): (r: TenantsFilters)
    ensures r.search == (if u.SetSearch? then u.search else f.search)
    ensures r.status == (if u.SetStatus? then u.status else f.status)
    ensures r.propertyId == (if u.SetPropertyId? then u.propertyId else f.propertyId)
    ensures r.sortBy == (if u.SetSortBy? then u.sortBy else f.sortBy)
    ensures r.showArchived == (if u.SetShowArchived? then u.showArchived else f.showArchived)
  {
    match u
    case SetSearch(v) => f.(search := v)
    case SetStatus(v) => f.(status := v)
    case SetPropertyId(v) => f.(propertyId := v)
    case SetSortBy(v) => f.(sortBy := v)
    case SetShowArchived(v) => f.(showArchived := v)
  }

  /** `resetFilters`: a fresh literal that equals the initial state. */
  function ResetFilters(): (r: TenantsFilters)
    ensures r == InitialFilters
  {
    TenantsFilters("", None, None, "name", false)
  }

  // ---------------------------------------------------------------------------
  // The `filtered` pipeline

  /** The fields the search looks in: name, unit, phone and the property name. */
  function SearchFields(t: Tenant, propertyById: map<int, Property>): seq<Option<string>> {
    [Some(t.name), Some(t.unit), Some(t.phone), PropertyName(propertyById, t.propertyId)]
  }

  /** The comparator picked by `sortBy`, as "comes no later than": rent descending,
      payment status ascending, or (the default) name ascending. */
  function Order(sortBy: string): (le: (Tenant, Tenant) -> bool)
    ensures sortBy == "rent" ==> forall a, b :: le(a, b) == (b.rentAmount <= a.rentAmount)
    ensures sortBy == "payment" ==> forall a, b :: le(a, b) == StrLe(a.paymentStatus, b.paymentStatus)
    ensures sortBy != "rent" && sortBy != "payment" ==> forall a, b :: le(a, b) == StrLe(a.name, b.name)
  {
    if sortBy == "rent" then (a: Tenant, b: Tenant) => b.rentAmount <= a.rentAmount
    else if sortBy == "payment" then (a: Tenant, b: Tenant) => StrLe(a.paymentStatus, b.paymentStatus)
    else (a: Tenant, b: Tenant) => StrLe(a.name, b.name)
  }

  lemma OrderIsTotalPreorder(sortBy: string)
    ensures TotalPreorder(Order(sortBy))
  {
    var le := Order(sortBy);
    if sortBy == "payment" {
      forall a: Tenant, b: Tenant ensures le(a, b) || le(b, a) {
        StrLeTotal(a.paymentStatus, b.paymentStatus);
      }
      forall a: Tenant, b: Tenant, c: Tenant | le(a, b) && le(b, c) ensures le(a, c) {
        StrLeTransitive(a.paymentStatus, b.paymentStatus, c.paymentStatus);
      }
    } else if sortBy != "rent" {
      forall a: Tenant, b: Tenant ensures le(a, b) || le(b, a) {
        StrLeTotal(a.name, b.name);
      }
      forall a: Tenant, b: Tenant, c: Tenant | le(a, b) && le(b, c) ensures le(a, c) {
        StrLeTransitive(a.name, b.name, c.name);
      }
    }
  }

  /** The "payment" sort puts "Overdue" before "Paid" before "Pending". */
  lemma PaymentOrderOfStatuses()
    ensures StrLe("Overdue", "Paid") && StrLe("Paid", "Pending")
    ensures !StrLe("Paid", "Overdue") && !StrLe("Pending", "Paid")
  {
    assert "Paid"[1..] == "aid" && "Pending"[1..] == "ending";
  }

  /** The filter steps of `filtered`, in source order, before the sort. */
  function Selected(tenants: seq<Tenant>, f: TenantsFilters, propertyById: map<int, Property>): seq<Tenant> {
    var l1 := Filter(tenants, (t: Tenant) => f.showArchived || !Truthy(t.archived));
    var l2 := When(f.search != "", l1,
      (t: Tenant) => AnyFieldIncludes(SearchFields(t, propertyById), Lower(f.search)));
    var l3 := When(StrSet(f.status), l2, (t: Tenant) => Some(t.status) == f.status);
    When(IdSet(f.propertyId), l3, (t: Tenant) => Some(t.propertyId) == f.propertyId)
  }

  /** `filtered`: the selected tenants, sorted by a copy-and-sort. */
  function Filtered(tenants: seq<Tenant>, f: TenantsFilters, propertyById: map<int, Property>): seq<Tenant> {
    Sort(Selected(tenants, f, propertyById), Order(f.sortBy))
  }

  /** Which tenants the pipeline lets through, stated test by test. */
  predicate Keep(f: TenantsFilters, propertyById: map<int, Property>, t: Tenant) {
    && (f.showArchived || !Truthy(t.archived))
    && (f.search != "" ==> SearchMatches(SearchFields(t, propertyById), f.search))
    && (StrSet(f.status) ==> t.status == f.status.value)
    && (IdSet(f.propertyId) ==> t.propertyId == f.propertyId.value)
  }

  // The tests passed after each step of `Selected`, for the proof below.

  predicate Pass2(f: TenantsFilters, propertyById: map<int, Property>, t: Tenant) {
    && (f.showArchived || !Truthy(t.archived))
    && (f.search != "" ==> AnyFieldIncludes(SearchFields(t, propertyById), Lower(f.search)))
  }

  predicate Pass4(f: TenantsFilters, propertyById: map<int, Property>, t: Tenant) {
    && Pass2(f, propertyById, t)
    && (StrSet(f.status) ==> Some(t.status) == f.status)
    && (IdSet(f.propertyId) ==> Some(t.propertyId) == f.propertyId)
  }

  lemma SelectedSteps(tenants: seq<Tenant>, f: TenantsFilters, propertyById: map<int, Property>)
    ensures Selected(tenants, f, propertyById) == Filter(tenants, (t: Tenant) => Pass4(f, propertyById, t))
  {
    var p2 := (t: Tenant) => Pass2(f, propertyById, t);
    FilterThen(f.search != "", tenants,
      (t: Tenant) => f.showArchived || !Truthy(t.archived),
      (t: Tenant) => AnyFieldIncludes(SearchFields(t, propertyById), Lower(f.search)), p2);
    var p3 := (t: Tenant) => p2(t) && (StrSet(f.status) ==> Some(t.status) == f.status);
    FilterThen(StrSet(f.status), tenants, p2, (t: Tenant) => Some(t.status) == f.status, p3);
    FilterThen(IdSet(f.propertyId), tenants, p3, (t: Tenant) => Some(t.propertyId) == f.propertyId,
      (t: Tenant) => Pass4(f, propertyById, t));
  }

  /** The filter steps select exactly the tenants passing every active test, in input order. */
  lemma SelectedIsFilter(tenants: seq<Tenant>, f: TenantsFilters, propertyById: map<int, Property>)
    ensures Selected(tenants, f, propertyById) == Filter(tenants, (t: Tenant) => Keep(f, propertyById, t))
  {
    SelectedSteps(tenants, f, propertyById);
    forall t | t in tenants
      ensures Pass4(f, propertyById, t) == Keep(f, propertyById, t)
    {
      if f.search != "" {
        AnyFieldIncludesAt(SearchFields(t, propertyById), f.search);
      }
    }
    FilterExt(tenants, (t: Tenant) => Pass4(f, propertyById, t), (t: Tenant) => Keep(f, propertyById, t));
  }

  /** What the pipeline promises: its output holds each passing tenant exactly as often as
      the input does and nothing else, ordered by the chosen key, with ties in input order. */
  lemma FilteredSpec(tenants: seq<Tenant>, f: TenantsFilters, propertyById: map<int, Property>)
    ensures var r := Filtered(tenants, f, propertyById);
      && (forall t :: multiset(r)[t] == if Keep(f, propertyById, t) then multiset(tenants)[t] else 0)
      && SortedBy(r, Order(f.sortBy))
      && (forall x :: ClassOf(r, Order(f.sortBy), x)
            == ClassOf(Filter(tenants, (t: Tenant) => Keep(f, propertyById, t)), Order(f.sortBy), x))
  {
    var keep := (t: Tenant) => Keep(f, propertyById, t);
    SelectedIsFilter(tenants, f, propertyById);
    OrderIsTotalPreorder(f.sortBy);
    SortSpec(Filter(tenants, keep), Order(f.sortBy));
    forall t
      ensures multiset(Filtered(tenants, f, propertyById))[t] == if keep(t) then multiset(tenants)[t] else 0
    {
      FilterMultiset(tenants, keep, t);
    }
  }

  /** A tenant is listed exactly when it is in the input and passes every active test. */
  lemma FilteredMembership(tenants: seq<Tenant>, f: TenantsFilters, propertyById: map<int, Property>, t: Tenant)
    ensures t in Filtered(tenants, f, propertyById) <==> t in tenants && Keep(f, propertyById, t)
  {
    FilteredSpec(tenants, f, propertyById);
    var r := Filtered(tenants, f, propertyById);
    assert t in r <==> multiset(r)[t] > 0;
    assert t in tenants <==> multiset(tenants)[t] > 0;
  }

  /** The orderings the three sort keys give. */
  lemma FilteredOrder(tenants: seq<Tenant>, f: TenantsFilters, propertyById: map<int, Property>)
    ensures var r := Filtered(tenants, f, propertyById);
      && (f.sortBy == "rent" ==> forall i, j :: 0 <= i < j < |r| ==> r[i].rentAmount >= r[j].rentAmount)
      && (f.sortBy == "payment" ==> forall i, j :: 0 <= i < j < |r| ==> StrLe(r[i].paymentStatus, r[j].paymentStatus))
      && (f.sortBy != "rent" && f.sortBy != "payment" ==> forall i, j :: 0 <= i < j < |r| ==> StrLe(r[i].name, r[j].name))
  {
    FilteredSpec(tenants, f, propertyById);
  }

  /** Under the initial (or reset) state no archived tenant is listed. */
  lemma InitialHidesArchived(tenants: seq<Tenant>, propertyById: map<int, Property>, t: Tenant)
    requires t in Filtered(tenants, ResetFilters(), propertyById)
    ensures !Truthy(t.archived) && t in tenants
  {
    FilteredMembership(tenants, ResetFilters(), propertyById, t);
  }
}

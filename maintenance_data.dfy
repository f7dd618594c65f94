/** The maintenance list hook (`hooks/useMaintenanceData.ts`): filter state with its
    defaults and the `filtered` pipeline. */
module MaintenanceData {
  import opened Common
  import opened Text
  import opened Entities
  import opened StableSort

  // ---------------------------------------------------------------------------
  // Filter state

  datatype MaintenanceFilters = MaintenanceFilters(
    search: string,
    propertyId: Option<int>,
    tenantId: Option<int>,
    status: Option<string>,
    priority: Option<string>,
    from: string,
    to: string,
    showArchived: bool,
    sortBy: string)

  /** The state the hook starts from. */
  const InitialFilters: MaintenanceFilters := MaintenanceFilters("", None, None, None, None, "", "", false, "date")

  /** One `setFilter(key, value)` call. */
  datatype FilterUpdate =
    | SetSearch(search: string)
    | SetPropertyId(propertyId: Option<int>)
    | SetTenantId(tenantId: Option<int>)
    | SetStatus(status: Option<string>)
    | SetPriority(priority: Option<string>)
    | SetFrom(from: string)
    | SetTo(to: string)
    | SetShowArchived(showArchived: bool)
    | SetSortBy(sortBy: string)

  /** `{ ...prev, [key]: value }`: the named key takes the value, every other key keeps its own. */
  function SetFilter(f: MaintenanceFilters, u: FilterUpdate): (r: MaintenanceFilters)
    ensures r.search == (if u.SetSearch? then u.search else f.search)
    ensures r.propertyId == (if u.SetPropertyId? then u.propertyId else f.propertyId)
    ensures r.tenantId == (if u.SetTenantId? then u.tenantId else f.tenantId)
    ensures r.status == (if u.SetStatus? then u.status else f.status)
    ensures r.priority == (if u.SetPriority? then u.priority else f.priority)
    ensures r.from == (if u.SetFrom? then u.from else f.from)
    ensures r.to == (if u.SetTo? then u.to else f.to)
    ensures r.showArchived == (if u.SetShowArchived? then u.showArchived else f.showArchived)
    ensures r.sortBy == (if u.SetSortBy? then u.sortBy else f.sortBy)
  {
    match u
    case SetSearch(v) => f.(search := v)
    case SetPropertyId(v) => f.(propertyId := v)
    case SetTenantId(v) => f.(tenantId := v)
    case SetStatus(v) => f.(status := v)
    case SetPriority(v) => f.(priority := v)
    case SetFrom(v) => f.(from := v)
    case SetTo(v) => f.(to := v)
    case SetShowArchived(v) => f.(showArchived := v)
    case SetSortBy(v) => f.(sortBy := v)
  }

  /** `resetFilters`: a fresh literal that equals the initial state. */
  function ResetFilters(): (r: MaintenanceFilters)
    ensures r == InitialFilters
  {
    MaintenanceFilters("", None, None, None, None, "", "", false, "date")
  }

  // ---------------------------------------------------------------------------
  // The `filtered` pipeline

  /** The fields the search looks in: title, property name, and the tenant name looked up
      by `tenantId ?? -1`, so a request without a tenant contributes no tenant name
      unless some tenant has id -1. */
  function SearchFields(r: MaintenanceRequest, propertyById: map<int, Property>, tenantById: map<int, Tenant>): seq<Option<string>> {
    [Some(r.title), PropertyName(propertyById, r.propertyId), TenantName(tenantById, r.tenantId.GetOr(-1))]
  }

  /** `estimatedCost ?? 0`. */
  function CostOrZero(r: MaintenanceRequest): int {
    r.estimatedCost.GetOr(0)
  }

  /** The comparator picked by `sortBy`, as "comes no later than": priority and status
      ascending as strings, cost descending with a missing cost as 0, or (the default)
      submission date descending, newest first. */
  function Order(sortBy: string, ms: DateMs): (le: (MaintenanceRequest, MaintenanceRequest) -> bool)
    ensures sortBy == "priority" ==> forall a, b :: le(a, b) == StrLe(a.priority, b.priority)
    ensures sortBy == "status" ==> forall a, b :: le(a, b) == StrLe(a.status, b.status)
    ensures sortBy == "cost" ==> forall a, b :: le(a, b) == (CostOrZero(b) <= CostOrZero(a))
    ensures sortBy != "priority" && sortBy != "status" && sortBy != "cost" ==>
      forall a, b :: le(a, b) == (ms(b.dateSubmitted) <= ms(a.dateSubmitted))
  {
    if sortBy == "priority" then (a: MaintenanceRequest, b: MaintenanceRequest) => StrLe(a.priority, b.priority)
    else if sortBy == "status" then (a: MaintenanceRequest, b: MaintenanceRequest) => StrLe(a.status, b.status)
    else if sortBy == "cost" then (a: MaintenanceRequest, b: MaintenanceRequest) => CostOrZero(b) <= CostOrZero(a)
    else (a: MaintenanceRequest, b: MaintenanceRequest) => ms(b.dateSubmitted) <= ms(a.dateSubmitted)
  }

  lemma OrderIsTotalPreorder(sortBy: string, ms: DateMs)
    ensures TotalPreorder(Order(sortBy, ms))
  {
    var le := Order(sortBy, ms);
    if sortBy == "priority" {
      forall a: MaintenanceRequest, b: MaintenanceRequest ensures le(a, b) || le(b, a) {
        StrLeTotal(a.priority, b.priority);
      }
      forall a: MaintenanceRequest, b: MaintenanceRequest, c: MaintenanceRequest | le(a, b) && le(b, c)
        ensures le(a, c)
      {
        StrLeTransitive(a.priority, b.priority, c.priority);
      }
    } else if sortBy == "status" {
      forall a: MaintenanceRequest, b: MaintenanceRequest ensures le(a, b) || le(b, a) {
        StrLeTotal(a.status, b.status);
      }
      forall a: MaintenanceRequest, b: MaintenanceRequest, c: MaintenanceRequest | le(a, b) && le(b, c)
        ensures le(a, c)
      {
        StrLeTransitive(a.status, b.status, c.status);
      }
    }
  }

  /** The "priority" sort is alphabetical, not by severity: Critical, High, Low, Medium. */
  lemma PriorityOrderIsAlphabetical()
    ensures StrLe("Critical", "High") && StrLe("High", "Low") && StrLe("Low", "Medium")
    ensures !StrLe("Medium", "Low") && !StrLe("High", "Critical")
  {
    assert "Low"[1..] == "ow" && "Medium"[1..] == "edium";
  }

  /** The filter steps of `filtered`, in source order, before the sort. */
  function Selected(
    requests: seq<MaintenanceRequest>, f: MaintenanceFilters,
    propertyById: map<int, Property>, tenantById: map<int, Tenant>, ms: DateMs): seq<MaintenanceRequest>
  {
    var l1 := Filter(requests, (r: MaintenanceRequest) => f.showArchived || !Truthy(r.archived));
    var l2 := When(f.search != "", l1,
      (r: MaintenanceRequest) => AnyFieldIncludes(SearchFields(r, propertyById, tenantById), Lower(f.search)));
    var l3 := When(IdSet(f.propertyId), l2, (r: MaintenanceRequest) => Some(r.propertyId) == f.propertyId);
    var l4 := When(IdSet(f.tenantId), l3, (r: MaintenanceRequest) => r.tenantId == f.tenantId);
    var l5 := When(StrSet(f.status), l4, (r: MaintenanceRequest) => Some(r.status) == f.status);
    var l6 := When(StrSet(f.priority), l5, (r: MaintenanceRequest) => Some(r.priority) == f.priority);
    var l7 := When(f.from != "", l6, (r: MaintenanceRequest) => ms(r.dateSubmitted) >= ms(f.from));
    When(f.to != "", l7, (r: MaintenanceRequest) => ms(r.dateSubmitted) <= ms(f.to))
  }

  /** `filtered`: the selected requests, sorted by a copy-and-sort. */
  function Filtered(
    requests: seq<MaintenanceRequest>, f: MaintenanceFilters,
    propertyById: map<int, Property>, tenantById: map<int, Tenant>, ms: DateMs): seq<MaintenanceRequest>
  {
    Sort(Selected(requests, f, propertyById, tenantById, ms), Order(f.sortBy, ms))
  }

  /** Which requests the pipeline lets through, stated test by test. */
  predicate Keep(
    f: MaintenanceFilters, propertyById: map<int, Property>, tenantById: map<int, Tenant>,
    ms: DateMs, r: MaintenanceRequest)
  {
    && (f.showArchived || !Truthy(r.archived))
    && (f.search != "" ==> SearchMatches(SearchFields(r, propertyById, tenantById), f.search))
    && (IdSet(f.propertyId) ==> r.propertyId == f.propertyId.value)
    && (IdSet(f.tenantId) ==> r.tenantId.Some? && r.tenantId.value == f.tenantId.value)
    && (StrSet(f.status) ==> r.status == f.status.value)
    && (StrSet(f.priority) ==> r.priority == f.priority.value)
    && (f.from != "" ==> ms(f.from) <= ms(r.dateSubmitted))
    && (f.to != "" ==> ms(r.dateSubmitted) <= ms(f.to))
  }

  // The tests passed after each step of `Selected`, for the proof below.

  predicate Pass2(f: MaintenanceFilters, propertyById: map<int, Property>, tenantById: map<int, Tenant>, r: MaintenanceRequest) {
    && (f.showArchived || !Truthy(r.archived))
    && (f.search != "" ==> AnyFieldIncludes(SearchFields(r, propertyById, tenantById), Lower(f.search)))
  }

  predicate Pass3(f: MaintenanceFilters, propertyById: map<int, Property>, tenantById: map<int, Tenant>, r: MaintenanceRequest) {
    Pass2(f, propertyById, tenantById, r) && (IdSet(f.propertyId) ==> Some(r.propertyId) == f.propertyId)
  }

  predicate Pass4(f: MaintenanceFilters, propertyById: map<int, Property>, tenantById: map<int, Tenant>, r: MaintenanceRequest) {
    Pass3(f, propertyById, tenantById, r) && (IdSet(f.tenantId) ==> r.tenantId == f.tenantId)
  }

  predicate Pass5(f: MaintenanceFilters, propertyById: map<int, Property>, tenantById: map<int, Tenant>, r: MaintenanceRequest) {
    Pass4(f, propertyById, tenantById, r) && (StrSet(f.status) ==> Some(r.status) == f.status)
  }

  predicate Pass6(f: MaintenanceFilters, propertyById: map<int, Property>, tenantById: map<int, Tenant>, r: MaintenanceRequest) {
    Pass5(f, propertyById, tenantById, r) && (StrSet(f.priority) ==> Some(r.priority) == f.priority)
  }

  predicate Pass7(
    f: MaintenanceFilters, propertyById: map<int, Property>, tenantById: map<int, Tenant>, ms: DateMs, r: MaintenanceRequest)
  {
    Pass6(f, propertyById, tenantById, r) && (f.from != "" ==> ms(r.dateSubmitted) >= ms(f.from))
  }

  predicate Pass8(
    f: MaintenanceFilters, propertyById: map<int, Property>, tenantById: map<int, Tenant>, ms: DateMs, r: MaintenanceRequest)
  {
    Pass7(f, propertyById, tenantById, ms, r) && (f.to != "" ==> ms(r.dateSubmitted) <= ms(f.to))
  }

  lemma SelectedSteps12(
    requests: seq<MaintenanceRequest>, f: MaintenanceFilters,
    propertyById: map<int, Property>, tenantById: map<int, Tenant>)
    ensures
      var l1 := Filter(requests, (r: MaintenanceRequest) => f.showArchived || !Truthy(r.archived));
      When(f.search != "", l1,
        (r: MaintenanceRequest) => AnyFieldIncludes(SearchFields(r, propertyById, tenantById), Lower(f.search)))
        == Filter(requests, (r: MaintenanceRequest) => Pass2(f, propertyById, tenantById, r))
  {
    FilterThen(f.search != "", requests,
      (r: MaintenanceRequest) => f.showArchived || !Truthy(r.archived),
      (r: MaintenanceRequest) => AnyFieldIncludes(SearchFields(r, propertyById, tenantById), Lower(f.search)),
      (r: MaintenanceRequest) => Pass2(f, propertyById, tenantById, r));
  }

  lemma SelectedSteps34(
    requests: seq<MaintenanceRequest>, f: MaintenanceFilters,
    propertyById: map<int, Property>, tenantById: map<int, Tenant>)
    ensures
      var l2 := Filter(requests, (r: MaintenanceRequest) => Pass2(f, propertyById, tenantById, r));
      var l3 := When(IdSet(f.propertyId), l2, (r: MaintenanceRequest) => Some(r.propertyId) == f.propertyId);
      When(IdSet(f.tenantId), l3, (r: MaintenanceRequest) => r.tenantId == f.tenantId)
        == Filter(requests, (r: MaintenanceRequest) => Pass4(f, propertyById, tenantById, r))
  {
    var p3 := (r: MaintenanceRequest) => Pass3(f, propertyById, tenantById, r);
    FilterThen(IdSet(f.propertyId), requests,
      (r: MaintenanceRequest) => Pass2(f, propertyById, tenantById, r),
      (r: MaintenanceRequest) => Some(r.propertyId) == f.propertyId, p3);
    FilterThen(IdSet(f.tenantId), requests, p3,
      (r: MaintenanceRequest) => r.tenantId == f.tenantId,
      (r: MaintenanceRequest) => Pass4(f, propertyById, tenantById, r));
  }

  lemma SelectedSteps56(
    requests: seq<MaintenanceRequest>, f: MaintenanceFilters,
    propertyById: map<int, Property>, tenantById: map<int, Tenant>)
    ensures
      var l4 := Filter(requests, (r: MaintenanceRequest) => Pass4(f, propertyById, tenantById, r));
      var l5 := When(StrSet(f.status), l4, (r: MaintenanceRequest) => Some(r.status) == f.status);
      When(StrSet(f.priority), l5, (r: MaintenanceRequest) => Some(r.priority) == f.priority)
        == Filter(requests, (r: MaintenanceRequest) => Pass6(f, propertyById, tenantById, r))
  {
    var p5 := (r: MaintenanceRequest) => Pass5(f, propertyById, tenantById, r);
    FilterThen(StrSet(f.status), requests,
      (r: MaintenanceRequest) => Pass4(f, propertyById, tenantById, r),
      (r: MaintenanceRequest) => Some(r.status) == f.status, p5);
    FilterThen(StrSet(f.priority), requests, p5,
      (r: MaintenanceRequest) => Some(r.priority) == f.priority,
      (r: MaintenanceRequest) => Pass6(f, propertyById, tenantById, r));
  }

  lemma SelectedSteps78(
    requests: seq<MaintenanceRequest>, f: MaintenanceFilters,
    propertyById: map<int, Property>, tenantById: map<int, Tenant>, ms: DateMs)
    ensures
      var l6 := Filter(requests, (r: MaintenanceRequest) => Pass6(f, propertyById, tenantById, r));
      var l7 := When(f.from != "", l6, (r: MaintenanceRequest) => ms(r.dateSubmitted) >= ms(f.from));
      When(f.to != "", l7, (r: MaintenanceRequest) => ms(r.dateSubmitted) <= ms(f.to))
        == Filter(requests, (r: MaintenanceRequest) => Pass8(f, propertyById, tenantById, ms, r))
  {
    var p7 := (r: MaintenanceRequest) => Pass7(f, propertyById, tenantById, ms, r);
    FilterThen(f.from != "", requests,
      (r: MaintenanceRequest) => Pass6(f, propertyById, tenantById, r),
      (r: MaintenanceRequest) => ms(r.dateSubmitted) >= ms(f.from), p7);
    FilterThen(f.to != "", requests, p7,
      (r: MaintenanceRequest) => ms(r.dateSubmitted) <= ms(f.to),
      (r: MaintenanceRequest) => Pass8(f, propertyById, tenantById, ms, r));
  }

  lemma PassesAreKeep(
    f: MaintenanceFilters, propertyById: map<int, Property>, tenantById: map<int, Tenant>,
    ms: DateMs, r: MaintenanceRequest)
    ensures Pass8(f, propertyById, tenantById, ms, r) == Keep(f, propertyById, tenantById, ms, r)
  {
    if f.search != "" {
      AnyFieldIncludesAt(SearchFields(r, propertyById, tenantById), f.search);
    }
  }

  /** The filter steps select exactly the requests passing every active test, in input order. */
  lemma SelectedIsFilter(
    requests: seq<MaintenanceRequest>, f: MaintenanceFilters,
    propertyById: map<int, Property>, tenantById: map<int, Tenant>, ms: DateMs)
    ensures Selected(requests, f, propertyById, tenantById, ms)
      == Filter(requests, (r: MaintenanceRequest) => Keep(f, propertyById, tenantById, ms, r))
  {
    SelectedSteps12(requests, f, propertyById, tenantById);
    SelectedSteps34(requests, f, propertyById, tenantById);
    SelectedSteps56(requests, f, propertyById, tenantById);
    SelectedSteps78(requests, f, propertyById, tenantById, ms);
    forall r | r in requests
      ensures Pass8(f, propertyById, tenantById, ms, r) == Keep(f, propertyById, tenantById, ms, r)
    {
      PassesAreKeep(f, propertyById, tenantById, ms, r);
    }
    FilterExt(requests,
      (r: MaintenanceRequest) => Pass8(f, propertyById, tenantById, ms, r),
      (r: MaintenanceRequest) => Keep(f, propertyById, tenantById, ms, r));
  }

  /** What the pipeline promises: its output holds each passing request exactly as often
      as the input does and nothing else, ordered by the chosen key, with ties in input order. */
  lemma FilteredSpec(
    requests: seq<MaintenanceRequest>, f: MaintenanceFilters,
    propertyById: map<int, Property>, tenantById: map<int, Tenant>, ms: DateMs)
    ensures var out := Filtered(requests, f, propertyById, tenantById, ms);
      && (forall r :: multiset(out)[r] == if Keep(f, propertyById, tenantById, ms, r) then multiset(requests)[r] else 0)
      && SortedBy(out, Order(f.sortBy, ms))
      && (forall x :: ClassOf(out, Order(f.sortBy, ms), x)
            == ClassOf(Filter(requests, (r: MaintenanceRequest) => Keep(f, propertyById, tenantById, ms, r)), Order(f.sortBy, ms), x))
  {
    var keep := (r: MaintenanceRequest) => Keep(f, propertyById, tenantById, ms, r);
    SelectedIsFilter(requests, f, propertyById, tenantById, ms);
    OrderIsTotalPreorder(f.sortBy, ms);
    SortSpec(Filter(requests, keep), Order(f.sortBy, ms));
    forall r
      ensures multiset(Filtered(requests, f, propertyById, tenantById, ms))[r]
        == if keep(r) then multiset(requests)[r] else 0
    {
      FilterMultiset(requests, keep, r);
    }
  }

  /** A request is listed exactly when it is in the input and passes every active test;
      in particular a request without a tenant is dropped whenever a tenant filter is set,
      and none is archived unless `showArchived` is set. */
  lemma FilteredMembership(
    requests: seq<MaintenanceRequest>, f: MaintenanceFilters,
    propertyById: map<int, Property>, tenantById: map<int, Tenant>, ms: DateMs, r: MaintenanceRequest)
    ensures r in Filtered(requests, f, propertyById, tenantById, ms)
      <==> r in requests && Keep(f, propertyById, tenantById, ms, r)
    ensures r in Filtered(requests, f, propertyById, tenantById, ms) && IdSet(f.tenantId) ==> r.tenantId.Some?
    ensures r in Filtered(requests, f, propertyById, tenantById, ms) && !f.showArchived ==> !Truthy(r.archived)
  {
    FilteredSpec(requests, f, propertyById, tenantById, ms);
    var out := Filtered(requests, f, propertyById, tenantById, ms);
    assert r in out <==> multiset(out)[r] > 0;
    assert r in requests <==> multiset(requests)[r] > 0;
  }

  /** The orderings the four sort keys give. */
  lemma FilteredOrder(
    requests: seq<MaintenanceRequest>, f: MaintenanceFilters,
    propertyById: map<int, Property>, tenantById: map<int, Tenant>, ms: DateMs)
    ensures var out := Filtered(requests, f, propertyById, tenantById, ms);
      && (f.sortBy == "priority" ==> forall i, j :: 0 <= i < j < |out| ==> StrLe(out[i].priority, out[j].priority))
      && (f.sortBy == "status" ==> forall i, j :: 0 <= i < j < |out| ==> StrLe(out[i].status, out[j].status))
      && (f.sortBy == "cost" ==> forall i, j :: 0 <= i < j < |out| ==> CostOrZero(out[i]) >= CostOrZero(out[j]))
      && (f.sortBy != "priority" && f.sortBy != "status" && f.sortBy != "cost" ==>
            forall i, j :: 0 <= i < j < |out| ==> ms(out[i].dateSubmitted) >= ms(out[j].dateSubmitted))
  {
    FilteredSpec(requests, f, propertyById, tenantById, ms);
  }
}

/** The leases list hook (`hooks/useLeasesData.ts`): the derived status of a lease,
    the filter state with its defaults, and the `filtered` pipeline that drops archived
    leases, searches, filters by status and ids, and sorts a copy stably. */
module LeasesData {
  import opened Common
  import opened Text
  import opened Entities
  import opened StableSort

  /** `1000 * 60 * 60 * 24`: milliseconds per day. */
  const Day: int := 86400000

  /** `Math.ceil(a / b)` for a positive divisor. */
  function CeilDiv(a: int, b: int): (q: int)
    requires b > 0
    ensures (q - 1) * b < a <= q * b
  {
    -((-a) / b)
  }

  /** `computedStatus`: the status a lease shows, from its end date and the current time. */
  function ComputedStatus(l: Lease, now: int, ms: DateMs): (r: string)
    ensures r == "Expired" || r == "Pending Renewal" || r == "Pending" || r == "Active"
  {
    var days := CeilDiv(ms(l.endDate) - now, Day);
    if days < 0 then "Expired"
    else if days <= 30 then "Pending Renewal"
    else if l.status == "Pending" then "Pending"
    else "Active"
  }

  /** The status thresholds in milliseconds: "Expired" only once a whole day has passed
      since the end date, "Pending Renewal" from then up to 30 days ahead whatever the
      stored status, and beyond that "Pending" for a stored "Pending" and "Active" for
      any other stored status. */
  lemma ComputedStatusThresholds(l: Lease, now: int, ms: DateMs)
    ensures var d, r := ms(l.endDate) - now, ComputedStatus(l, now, ms);
      && (r == "Expired" <==> d <= -Day)
      && (r == "Pending Renewal" <==> -Day < d <= 30 * Day)
      && (r == "Pending" <==> 30 * Day < d && l.status == "Pending")
      && (r == "Active" <==> 30 * Day < d && l.status != "Pending")
  {
    var d := ms(l.endDate) - now;
    var days := CeilDiv(d, Day);
    if days < 0 {
      assert days * Day <= -Day;
    } else {
      assert (days - 1) * Day >= -Day;
    }
    if days <= 30 {
      assert days * Day <= 30 * Day;
    } else {
      assert (days - 1) * Day >= 30 * Day;
    }
  }

  /** A lease that ended less than a day ago still shows "Pending Renewal". */
  lemma RecentlyEndedIsPendingRenewal(l: Lease, now: int, ms: DateMs)
    requires now - Day < ms(l.endDate) <= now
    ensures ComputedStatus(l, now, ms) == "Pending Renewal"
  {
    ComputedStatusThresholds(l, now, ms);
  }

  // ---------------------------------------------------------------------------
  // Filter state

  datatype LeasesFilters = LeasesFilters(
    search: string,
    status: Option<string>,
    propertyId: Option<int>,
    tenantId: Option<int>,
    sortBy: string,
    showArchived: bool)

  /** The state the hook starts from. */
  const InitialFilters: LeasesFilters := LeasesFilters("", None, None, None, "end", false)

  /** One `setFilter(key, value)` call: the key and its new value. */
  datatype FilterUpdate =
    | SetSearch(search: string)
    | SetStatus(status: Option<string>)
    | SetPropertyId(propertyId: Option<int>)
    | SetTenantId(tenantId: Option<int>)
    | SetSortBy(sortBy: string)
    | SetShowArchived(showArchived: bool)

  /** `{ ...prev, [key]: value }`: the named key takes the value, every other key keeps its own. */
  function SetFilter(f: LeasesFilters, u: FilterUpdate): (r: LeasesFilters)
    ensures r.search == (if u.SetSearch? then u.search else f.search)
    ensures r.status == (if u.SetStatus? then u.status else f.status)
    ensures r.propertyId == (if u.SetPropertyId? then u.propertyId else f.propertyId)
    ensures r.tenantId == (if u.SetTenantId? then u.tenantId else f.tenantId)
    ensures r.sortBy == (if u.SetSortBy? then u.sortBy else f.sortBy)
    ensures r.showArchived == (if u.SetShowArchived? then u.showArchived else f.showArchived)
  {
    match u
    case SetSearch(v) => f.(search := v)
    case SetStatus(v) => f.(status := v)
    case SetPropertyId(v) => f.(propertyId := v)
    case SetTenantId(v) => f.(tenantId := v)
    case SetSortBy(v) => f.(sortBy := v)
    case SetShowArchived(v) => f.(showArchived := v)
  }

  /** Updates of different keys commute, and a later update of a key overrides an earlier one. */
  lemma SetFilterCommutes(f: LeasesFilters, u: FilterUpdate, v: FilterUpdate)
    ensures u.SetSearch? == v.SetSearch? && u.SetStatus? == v.SetStatus?
      && u.SetPropertyId? == v.SetPropertyId? && u.SetTenantId? == v.SetTenantId?
      && u.SetSortBy? == v.SetSortBy? && u.SetShowArchived? == v.SetShowArchived?
      ==> SetFilter(SetFilter(f, u), v) == SetFilter(f, v)
    ensures !(u.SetSearch? && v.SetSearch?) && !(u.SetStatus? && v.SetStatus?)
      && !(u.SetPropertyId? && v.SetPropertyId?) && !(u.SetTenantId? && v.SetTenantId?)
      && !(u.SetSortBy? && v.SetSortBy?) && !(u.SetShowArchived? && v.SetShowArchived?)
      ==> SetFilter(SetFilter(f, u), v) == SetFilter(SetFilter(f, v), u)
  {
  }

  /** `resetFilters`: a fresh literal that equals the initial state. */
  function ResetFilters(): (r: LeasesFilters)
    ensures r == InitialFilters
  {
    LeasesFilters("", None, None, None, "end", false)
  }

  // ---------------------------------------------------------------------------
  // The `filtered` pipeline

  /** The fields the search looks in: property name, tenant name (each missing when the
      lookup fails) and unit. */
  function SearchFields(l: Lease, propertyById: map<int, Property>, tenantById: map<int, Tenant>): seq<Option<string>> {
    [PropertyName(propertyById, l.propertyId), TenantName(tenantById, l.tenantId), Some(l.unit)]
  }

  /** The sort comparator picked by `sortBy`, as "comes no later than":
      start date ascending, rent descending, or (the default) end date ascending. */
  function Order(sortBy: string, ms: DateMs): (le: (Lease, Lease) -> bool)
    ensures sortBy == "start" ==> forall a, b :: le(a, b) == (ms(a.startDate) <= ms(b.startDate))
    ensures sortBy == "rent" ==> forall a, b :: le(a, b) == (b.rentAmount <= a.rentAmount)
    ensures sortBy != "start" && sortBy != "rent" ==> forall a, b :: le(a, b) == (ms(a.endDate) <= ms(b.endDate))
  {
    if sortBy == "start" then (a: Lease, b: Lease) => ms(a.startDate) <= ms(b.startDate)
    else if sortBy == "rent" then (a: Lease, b: Lease) => b.rentAmount <= a.rentAmount
    else (a: Lease, b: Lease) => ms(a.endDate) <= ms(b.endDate)
  }

  lemma OrderIsTotalPreorder(sortBy: string, ms: DateMs)
    ensures TotalPreorder(Order(sortBy, ms))
  {
  }

  /** The filter steps of `filtered`, in source order, before the sort. */
  function Selected(
    leases: seq<Lease>, f: LeasesFilters,
    propertyById: map<int, Property>, tenantById: map<int, Tenant>,
    now: int, ms: DateMs): seq<Lease>
  {
    var l1 := Filter(leases, (l: Lease) => f.showArchived || f.status == Some("Archived") || !Truthy(l.archived));
    var l2 := When(f.search != "", l1,
      (l: Lease) => AnyFieldIncludes(SearchFields(l, propertyById, tenantById), Lower(f.search)));
    var l3 :=
      if f.status == Some("Archived") then Filter(l2, (l: Lease) => Truthy(l.archived))
      else When(StrSet(f.status), l2, (l: Lease) => Some(ComputedStatus(l, now, ms)) == f.status);
    var l4 := When(IdSet(f.propertyId), l3, (l: Lease) => Some(l.propertyId) == f.propertyId);
    When(IdSet(f.tenantId), l4, (l: Lease) => Some(l.tenantId) == f.tenantId)
  }

  /** `filtered`: the selected leases, sorted by a copy-and-sort. */
  function Filtered(
    leases: seq<Lease>, f: LeasesFilters,
    propertyById: map<int, Property>, tenantById: map<int, Tenant>,
    now: int, ms: DateMs): seq<Lease>
  {
    Sort(Selected(leases, f, propertyById, tenantById, now, ms), Order(f.sortBy, ms))
  }

  /** Which leases the pipeline lets through, stated test by test. */
  predicate Keep(
    f: LeasesFilters, propertyById: map<int, Property>, tenantById: map<int, Tenant>,
    now: int, ms: DateMs, l: Lease)
  {
    && (Truthy(l.archived) ==> f.showArchived || f.status == Some("Archived"))
    && (f.search != "" ==> SearchMatches(SearchFields(l, propertyById, tenantById), f.search))
    && (f.status == Some("Archived") ==> Truthy(l.archived))
    && (f.status != Some("Archived") && StrSet(f.status) ==> Some(ComputedStatus(l, now, ms)) == f.status)
    && (IdSet(f.propertyId) ==> l.propertyId == f.propertyId.value)
    && (IdSet(f.tenantId) ==> l.tenantId == f.tenantId.value)
  }

  // The tests passed after each step of `Selected`, for the proof below.

  predicate Pass1(f: LeasesFilters, l: Lease) {
    f.showArchived || f.status == Some("Archived") || !Truthy(l.archived)
  }

  predicate Pass2(f: LeasesFilters, propertyById: map<int, Property>, tenantById: map<int, Tenant>, l: Lease) {
    Pass1(f, l) && (f.search != "" ==> AnyFieldIncludes(SearchFields(l, propertyById, tenantById), Lower(f.search)))
  }

  predicate Pass3(
    f: LeasesFilters, propertyById: map<int, Property>, tenantById: map<int, Tenant>,
    now: int, ms: DateMs, l: Lease)
  {
    && Pass2(f, propertyById, tenantById, l)
    && (f.status == Some("Archived") ==> Truthy(l.archived))
    && (f.status != Some("Archived") && StrSet(f.status) ==> Some(ComputedStatus(l, now, ms)) == f.status)
  }

  predicate Pass4(
    f: LeasesFilters, propertyById: map<int, Property>, tenantById: map<int, Tenant>,
    now: int, ms: DateMs, l: Lease)
  {
    Pass3(f, propertyById, tenantById, now, ms, l) && (IdSet(f.propertyId) ==> Some(l.propertyId) == f.propertyId)
  }

  predicate Pass5(
    f: LeasesFilters, propertyById: map<int, Property>, tenantById: map<int, Tenant>,
    now: int, ms: DateMs, l: Lease)
  {
    Pass4(f, propertyById, tenantById, now, ms, l) && (IdSet(f.tenantId) ==> Some(l.tenantId) == f.tenantId)
  }

  lemma SelectedSteps12(leases: seq<Lease>, f: LeasesFilters, propertyById: map<int, Property>, tenantById: map<int, Tenant>)
    ensures
      var l1 := Filter(leases, (l: Lease) => f.showArchived || f.status == Some("Archived") || !Truthy(l.archived));
      When(f.search != "", l1, (l: Lease) => AnyFieldIncludes(SearchFields(l, propertyById, tenantById), Lower(f.search)))
        == Filter(leases, (l: Lease) => Pass2(f, propertyById, tenantById, l))
  {
    FilterThen(f.search != "", leases,
      (l: Lease) => f.showArchived || f.status == Some("Archived") || !Truthy(l.archived),
      (l: Lease) => AnyFieldIncludes(SearchFields(l, propertyById, tenantById), Lower(f.search)),
      (l: Lease) => Pass2(f, propertyById, tenantById, l));
  }

  lemma SelectedStep3(
    leases: seq<Lease>, f: LeasesFilters, propertyById: map<int, Property>, tenantById: map<int, Tenant>,
    now: int, ms: DateMs)
    ensures
      var l2 := Filter(leases, (l: Lease) => Pass2(f, propertyById, tenantById, l));
      (if f.status == Some("Archived") then Filter(l2, (l: Lease) => Truthy(l.archived))
       else When(StrSet(f.status), l2, (l: Lease) => Some(ComputedStatus(l, now, ms)) == f.status))
        == Filter(leases, (l: Lease) => Pass3(f, propertyById, tenantById, now, ms, l))
  {
    var p2 := (l: Lease) => Pass2(f, propertyById, tenantById, l);
    var p3 := (l: Lease) => Pass3(f, propertyById, tenantById, now, ms, l);
    if f.status == Some("Archived") {
      FilterThen(true, leases, p2, (l: Lease) => Truthy(l.archived), p3);
    } else {
      FilterThen(StrSet(f.status), leases, p2, (l: Lease) => Some(ComputedStatus(l, now, ms)) == f.status, p3);
    }
  }

  lemma SelectedSteps45(
    leases: seq<Lease>, f: LeasesFilters, propertyById: map<int, Property>, tenantById: map<int, Tenant>,
    now: int, ms: DateMs)
    ensures
      var l3 := Filter(leases, (l: Lease) => Pass3(f, propertyById, tenantById, now, ms, l));
      var l4 := When(IdSet(f.propertyId), l3, (l: Lease) => Some(l.propertyId) == f.propertyId);
      When(IdSet(f.tenantId), l4, (l: Lease) => Some(l.tenantId) == f.tenantId)
        == Filter(leases, (l: Lease) => Pass5(f, propertyById, tenantById, now, ms, l))
  {
    var p3 := (l: Lease) => Pass3(f, propertyById, tenantById, now, ms, l);
    var p4 := (l: Lease) => Pass4(f, propertyById, tenantById, now, ms, l);
    FilterThen(IdSet(f.propertyId), leases, p3, (l: Lease) => Some(l.propertyId) == f.propertyId, p4);
    FilterThen(IdSet(f.tenantId), leases, p4, (l: Lease) => Some(l.tenantId) == f.tenantId,
      (l: Lease) => Pass5(f, propertyById, tenantById, now, ms, l));
  }

  /** The filter steps select exactly the leases passing every active test, in input order. */
  lemma SelectedIsFilter(
    leases: seq<Lease>, f: LeasesFilters,
    propertyById: map<int, Property>, tenantById: map<int, Tenant>,
    now: int, ms: DateMs)
    ensures Selected(leases, f, propertyById, tenantById, now, ms)
      == Filter(leases, (l: Lease) => Keep(f, propertyById, tenantById, now, ms, l))
  {
    SelectedSteps12(leases, f, propertyById, tenantById);
    SelectedStep3(leases, f, propertyById, tenantById, now, ms);
    SelectedSteps45(leases, f, propertyById, tenantById, now, ms);
    Pass5IsKeep(leases, f, propertyById, tenantById, now, ms);
  }

  /** Passing the five steps is passing every active test. */
  lemma Pass5IsKeep(
    leases: seq<Lease>, f: LeasesFilters,
    propertyById: map<int, Property>, tenantById: map<int, Tenant>,
    now: int, ms: DateMs)
    ensures Filter(leases, (l: Lease) => Pass5(f, propertyById, tenantById, now, ms, l))
      == Filter(leases, (l: Lease) => Keep(f, propertyById, tenantById, now, ms, l))
  {
    forall l | l in leases
      ensures Pass5(f, propertyById, tenantById, now, ms, l) == Keep(f, propertyById, tenantById, now, ms, l)
    {
      if f.search != "" {
        AnyFieldIncludesAt(SearchFields(l, propertyById, tenantById), f.search);
      }
    }
    FilterExt(leases,
      (l: Lease) => Pass5(f, propertyById, tenantById, now, ms, l),
      (l: Lease) => Keep(f, propertyById, tenantById, now, ms, l));
  }

  /** What the pipeline promises: its output holds each passing lease exactly as often as
      the input does and nothing else, ordered by the chosen key, with ties in input order. */
  lemma FilteredSpec(
    leases: seq<Lease>, f: LeasesFilters,
    propertyById: map<int, Property>, tenantById: map<int, Tenant>,
    now: int, ms: DateMs)
    ensures var r := Filtered(leases, f, propertyById, tenantById, now, ms);
      && (forall l :: multiset(r)[l] == if Keep(f, propertyById, tenantById, now, ms, l) then multiset(leases)[l] else 0)
      && SortedBy(r, Order(f.sortBy, ms))
      && (forall x :: ClassOf(r, Order(f.sortBy, ms), x)
            == ClassOf(Filter(leases, (l: Lease) => Keep(f, propertyById, tenantById, now, ms, l)), Order(f.sortBy, ms), x))
  {
    var keep := (l: Lease) => Keep(f, propertyById, tenantById, now, ms, l);
    var le := Order(f.sortBy, ms);
    SelectedIsFilter(leases, f, propertyById, tenantById, now, ms);
    OrderIsTotalPreorder(f.sortBy, ms);
    SortSpec(Filter(leases, keep), le);
    forall l
      ensures multiset(Filtered(leases, f, propertyById, tenantById, now, ms))[l]
        == if keep(l) then multiset(leases)[l] else 0
    {
      FilterMultiset(leases, keep, l);
    }
  }

  /** Membership: a lease is listed exactly when it is in the input and passes every test. */
  lemma FilteredMembership(
    leases: seq<Lease>, f: LeasesFilters,
    propertyById: map<int, Property>, tenantById: map<int, Tenant>,
    now: int, ms: DateMs, l: Lease)
    ensures l in Filtered(leases, f, propertyById, tenantById, now, ms)
      <==> l in leases && Keep(f, propertyById, tenantById, now, ms, l)
  {
    FilteredSpec(leases, f, propertyById, tenantById, now, ms);
    var r := Filtered(leases, f, propertyById, tenantById, now, ms);
    assert l in r <==> multiset(r)[l] > 0;
    assert l in leases <==> multiset(leases)[l] > 0;
  }

  /** The archive rules: with status "Archived" only archived leases are listed; with
      neither `showArchived` nor status "Archived", none is; any other status keeps the
      leases whose computed status equals it. */
  lemma FilteredArchiveAndStatus(
    leases: seq<Lease>, f: LeasesFilters,
    propertyById: map<int, Property>, tenantById: map<int, Tenant>,
    now: int, ms: DateMs, l: Lease)
    requires l in Filtered(leases, f, propertyById, tenantById, now, ms)
    ensures f.status == Some("Archived") ==> Truthy(l.archived)
    ensures !f.showArchived && f.status != Some("Archived") ==> !Truthy(l.archived)
    ensures f.status != Some("Archived") && StrSet(f.status) ==> ComputedStatus(l, now, ms) == f.status.value
  {
    FilteredMembership(leases, f, propertyById, tenantById, now, ms, l);
  }

  /** The orderings the three sort keys give. */
  lemma FilteredOrder(
    leases: seq<Lease>, f: LeasesFilters,
    propertyById: map<int, Property>, tenantById: map<int, Tenant>,
    now: int, ms: DateMs)
    ensures var r := Filtered(leases, f, propertyById, tenantById, now, ms);
      && (f.sortBy == "start" ==> forall i, j :: 0 <= i < j < |r| ==> ms(r[i].startDate) <= ms(r[j].startDate))
      && (f.sortBy == "rent" ==> forall i, j :: 0 <= i < j < |r| ==> r[i].rentAmount >= r[j].rentAmount)
      && (f.sortBy != "start" && f.sortBy != "rent" ==>
            forall i, j :: 0 <= i < j < |r| ==> ms(r[i].endDate) <= ms(r[j].endDate))
  {
    FilteredSpec(leases, f, propertyById, tenantById, now, ms);
  }

  /** Under the initial (or reset) state no archived lease is listed. */
  lemma InitialHidesArchived(
    leases: seq<Lease>, propertyById: map<int, Property>, tenantById: map<int, Tenant>,
    now: int, ms: DateMs, l: Lease)
    requires l in Filtered(leases, ResetFilters(), propertyById, tenantById, now, ms)
    ensures !Truthy(l.archived) && l in leases
  {
    FilteredMembership(leases, ResetFilters(), propertyById, tenantById, now, ms, l);
  }
}

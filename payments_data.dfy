/** The payments list hook (`hooks/usePaymentsData.ts`): filter state with its defaults,
    the `filtered` pipeline, and the `stats` loop over the filtered list. */
module PaymentsData {
  import opened Common
  import opened Text
  import opened Entities
  import opened StableSort
  import opened PaymentsHelpers

  // ---------------------------------------------------------------------------
  // Filter state

  datatype PaymentsFilters = PaymentsFilters(
    showArchived: bool,
    search: string,
    filterTenant: Option<int>,
    filterLease: Option<int>,
    filterMethod: Option<string>,
    filterStatus: Option<string>,
    filterFrom: string,
    filterTo: string,
    sortBy: string)

  /** The state the hook starts from. */
  const InitialFilters: PaymentsFilters := PaymentsFilters(false, "", None, None, None, None, "", "", "date")

  /** One `setFilter(key, value)` call. */
  datatype FilterUpdate =
    | SetShowArchived(showArchived: bool)
    | SetSearch(search: string)
    | SetFilterTenant(filterTenant: Option<int>)
    | SetFilterLease(filterLease: Option<int>)
    | SetFilterMethod(filterMethod: Option<string>)
    | SetFilterStatus(filterStatus: Option<string>)
    | SetFilterFrom(filterFrom: string)
    | SetFilterTo(filterTo: string)
    | SetSortBy(sortBy: string)

  /** `{ ...prev, [key]: value }`: the named key takes the value, every other key keeps its own. */
  function SetFilter(f: PaymentsFilters, u: FilterUpdate): (r: PaymentsFilters)
    ensures r.showArchived == (if u.SetShowArchived? then u.showArchived else f.showArchived)
    ensures r.search == (if u.SetSearch? then u.search else f.search)
    ensures r.filterTenant == (if u.SetFilterTenant? then u.filterTenant else f.filterTenant)
    ensures r.filterLease == (if u.SetFilterLease? then u.filterLease else f.filterLease)
    ensures r.filterMethod == (if u.SetFilterMethod? then u.filterMethod else f.filterMethod)
    ensures r.filterStatus == (if u.SetFilterStatus? then u.filterStatus else f.filterStatus)
    ensures r.filterFrom == (if u.SetFilterFrom? then u.filterFrom else f.filterFrom)
    ensures r.filterTo == (if u.SetFilterTo? then u.filterTo else f.filterTo)
    ensures r.sortBy == (if u.SetSortBy? then u.sortBy else f.sortBy)
  {
    match u
    case SetShowArchived(v) => f.(showArchived := v)
    case SetSearch(v) => f.(search := v)
    case SetFilterTenant(v) => f.(filterTenant := v)
    case SetFilterLease(v) => f.(filterLease := v)
    case SetFilterMethod(v) => f.(filterMethod := v)
    case SetFilterStatus(v) => f.(filterStatus := v)
    case SetFilterFrom(v) => f.(filterFrom := v)
    case SetFilterTo(v) => f.(filterTo := v)
    case SetSortBy(v) => f.(sortBy := v)
  }

  /** Setting a key to the value it already has changes nothing, and a later update of a
      key overrides an earlier one. */
  lemma SetFilterOverrides(f: PaymentsFilters, u: FilterUpdate, v: FilterUpdate)
    ensures SetFilter(f, u) == f <==>
      match u
      case SetShowArchived(x) => x == f.showArchived
      case SetSearch(x) => x == f.search
      case SetFilterTenant(x) => x == f.filterTenant
      case SetFilterLease(x) => x == f.filterLease
      case SetFilterMethod(x) => x == f.filterMethod
      case SetFilterStatus(x) => x == f.filterStatus
      case SetFilterFrom(x) => x == f.filterFrom
      case SetFilterTo(x) => x == f.filterTo
      case SetSortBy(x) => x == f.sortBy
    ensures u.SetShowArchived? == v.SetShowArchived? && u.SetSearch? == v.SetSearch?
      && u.SetFilterTenant? == v.SetFilterTenant? && u.SetFilterLease? == v.SetFilterLease?
      && u.SetFilterMethod? == v.SetFilterMethod? && u.SetFilterStatus? == v.SetFilterStatus?
      && u.SetFilterFrom? == v.SetFilterFrom? && u.SetFilterTo? == v.SetFilterTo?
      ==> SetFilter(SetFilter(f, u), v) == SetFilter(f, v)
  {
  }

  /** `resetFilters`: a fresh literal that equals the initial state. */
  function ResetFilters(): (r: PaymentsFilters)
    ensures r == InitialFilters
  {
    PaymentsFilters(false, "", None, None, None, None, "", "", "date")
  }

  // ---------------------------------------------------------------------------
  // The `filtered` pipeline

  /** The fields the search looks in: tenant name, the name of the property of the
      payment's lease (looked up as id -1 when the lease is unknown), and the reference. */
  function SearchFields(
    p: Payment, tenantById: map<int, Tenant>, leaseById: map<int, Lease>, propertyById: map<int, Property>): seq<Option<string>>
  {
    [ TenantName(tenantById, p.tenantId),
      PropertyName(propertyById, if p.leaseId in leaseById then leaseById[p.leaseId].propertyId else -1),
      Some(p.reference) ]
  }

  /** The comparator picked by `sortBy`, as "comes no later than": amount descending,
      status ascending, or (the default) date descending, newest first. */
  function Order(sortBy: string, ms: DateMs): (le: (Payment, Payment) -> bool)
    ensures sortBy == "amount" ==> forall a, b :: le(a, b) == (b.amount <= a.amount)
    ensures sortBy == "status" ==> forall a, b :: le(a, b) == StrLe(a.status, b.status)
    ensures sortBy != "amount" && sortBy != "status" ==> forall a, b :: le(a, b) == (ms(b.date) <= ms(a.date))
  {
    if sortBy == "amount" then (a: Payment, b: Payment) => b.amount <= a.amount
    else if sortBy == "status" then (a: Payment, b: Payment) => StrLe(a.status, b.status)
    else (a: Payment, b: Payment) => ms(b.date) <= ms(a.date)
  }

  lemma OrderIsTotalPreorder(sortBy: string, ms: DateMs)
    ensures TotalPreorder(Order(sortBy, ms))
  {
    if sortBy == "status" {
      var le := Order(sortBy, ms);
      forall a: Payment, b: Payment ensures le(a, b) || le(b, a) {
        StrLeTotal(a.status, b.status);
      }
      forall a: Payment, b: Payment, c: Payment | le(a, b) && le(b, c) ensures le(a, c) {
        StrLeTransitive(a.status, b.status, c.status);
      }
    }
  }

  /** The filter steps of `filtered`, in source order, before the sort. */
  function Selected(
    payments: seq<Payment>, f: PaymentsFilters,
    tenantById: map<int, Tenant>, leaseById: map<int, Lease>, propertyById: map<int, Property>,
    ms: DateMs): seq<Payment>
  {
    var l1 := Filter(payments, (p: Payment) => f.showArchived || !IsPaymentArchived(p));
    var l2 := When(f.search != "", l1,
      (p: Payment) => AnyFieldIncludes(SearchFields(p, tenantById, leaseById, propertyById), Lower(f.search)));
    var l3 := When(IdSet(f.filterTenant), l2, (p: Payment) => Some(p.tenantId) == f.filterTenant);
    var l4 := When(IdSet(f.filterLease), l3, (p: Payment) => Some(p.leaseId) == f.filterLease);
    var l5 := When(StrSet(f.filterMethod), l4, (p: Payment) => Some(p.payMethod) == f.filterMethod);
    var l6 := When(StrSet(f.filterStatus), l5, (p: Payment) => Some(p.status) == f.filterStatus);
    var l7 := When(f.filterFrom != "", l6, (p: Payment) => ms(p.date) >= ms(f.filterFrom));
    When(f.filterTo != "", l7, (p: Payment) => ms(p.date) <= ms(f.filterTo))
  }

  /** `filtered`: the selected payments, sorted by a copy-and-sort. */
  function Filtered(
    payments: seq<Payment>, f: PaymentsFilters,
    tenantById: map<int, Tenant>, leaseById: map<int, Lease>, propertyById: map<int, Property>,
    ms: DateMs): seq<Payment>
  {
    Sort(Selected(payments, f, tenantById, leaseById, propertyById, ms), Order(f.sortBy, ms))
  }

  /** Which payments the pipeline lets through, stated test by test: the set filters are
      AND-ed, and the date range is inclusive at both ends. */
  predicate Keep(
    f: PaymentsFilters, tenantById: map<int, Tenant>, leaseById: map<int, Lease>, propertyById: map<int, Property>,
    ms: DateMs, p: Payment)
  {
    && (f.showArchived || !IsPaymentArchived(p))
    && (f.search != "" ==> SearchMatches(SearchFields(p, tenantById, leaseById, propertyById), f.search))
    && (IdSet(f.filterTenant) ==> p.tenantId == f.filterTenant.value)
    && (IdSet(f.filterLease) ==> p.leaseId == f.filterLease.value)
    && (StrSet(f.filterMethod) ==> p.payMethod == f.filterMethod.value)
    && (StrSet(f.filterStatus) ==> p.status == f.filterStatus.value)
    && (f.filterFrom != "" ==> ms(f.filterFrom) <= ms(p.date))
    && (f.filterTo != "" ==> ms(p.date) <= ms(f.filterTo))
  }

  // The tests passed after each step of `Selected`, for the proof below.

  predicate Pass2(
    f: PaymentsFilters, tenantById: map<int, Tenant>, leaseById: map<int, Lease>, propertyById: map<int, Property>,
    p: Payment)
  {
    && (f.showArchived || !IsPaymentArchived(p))
    && (f.search != "" ==> AnyFieldIncludes(SearchFields(p, tenantById, leaseById, propertyById), Lower(f.search)))
  }

  predicate Pass3(
    f: PaymentsFilters, tenantById: map<int, Tenant>, leaseById: map<int, Lease>, propertyById: map<int, Property>,
    p: Payment)
  {
    Pass2(f, tenantById, leaseById, propertyById, p) && (IdSet(f.filterTenant) ==> Some(p.tenantId) == f.filterTenant)
  }

  predicate Pass4(
    f: PaymentsFilters, tenantById: map<int, Tenant>, leaseById: map<int, Lease>, propertyById: map<int, Property>,
    p: Payment)
  {
    Pass3(f, tenantById, leaseById, propertyById, p) && (IdSet(f.filterLease) ==> Some(p.leaseId) == f.filterLease)
  }

  predicate Pass5(
    f: PaymentsFilters, tenantById: map<int, Tenant>, leaseById: map<int, Lease>, propertyById: map<int, Property>,
    p: Payment)
  {
    Pass4(f, tenantById, leaseById, propertyById, p) && (StrSet(f.filterMethod) ==> Some(p.payMethod) == f.filterMethod)
  }

  predicate Pass6(
    f: PaymentsFilters, tenantById: map<int, Tenant>, leaseById: map<int, Lease>, propertyById: map<int, Property>,
    p: Payment)
  {
    Pass5(f, tenantById, leaseById, propertyById, p) && (StrSet(f.filterStatus) ==> Some(p.status) == f.filterStatus)
  }

  predicate Pass7(
    f: PaymentsFilters, tenantById: map<int, Tenant>, leaseById: map<int, Lease>, propertyById: map<int, Property>,
    ms: DateMs, p: Payment)
  {
    Pass6(f, tenantById, leaseById, propertyById, p) && (f.filterFrom != "" ==> ms(p.date) >= ms(f.filterFrom))
  }

  predicate Pass8(
    f: PaymentsFilters, tenantById: map<int, Tenant>, leaseById: map<int, Lease>, propertyById: map<int, Property>,
    ms: DateMs, p: Payment)
  {
    Pass7(f, tenantById, leaseById, propertyById, ms, p) && (f.filterTo != "" ==> ms(p.date) <= ms(f.filterTo))
  }

  lemma SelectedSteps12(
    payments: seq<Payment>, f: PaymentsFilters,
    tenantById: map<int, Tenant>, leaseById: map<int, Lease>, propertyById: map<int, Property>)
    ensures
      var l1 := Filter(payments, (p: Payment) => f.showArchived || !IsPaymentArchived(p));
      When(f.search != "", l1,
        (p: Payment) => AnyFieldIncludes(SearchFields(p, tenantById, leaseById, propertyById), Lower(f.search)))
        == Filter(payments, (p: Payment) => Pass2(f, tenantById, leaseById, propertyById, p))
  {
    FilterThen(f.search != "", payments,
      (p: Payment) => f.showArchived || !IsPaymentArchived(p),
      (p: Payment) => AnyFieldIncludes(SearchFields(p, tenantById, leaseById, propertyById), Lower(f.search)),
      (p: Payment) => Pass2(f, tenantById, leaseById, propertyById, p));
  }

  lemma SelectedSteps34(
    payments: seq<Payment>, f: PaymentsFilters,
    tenantById: map<int, Tenant>, leaseById: map<int, Lease>, propertyById: map<int, Property>)
    ensures
      var l2 := Filter(payments, (p: Payment) => Pass2(f, tenantById, leaseById, propertyById, p));
      var l3 := When(IdSet(f.filterTenant), l2, (p: Payment) => Some(p.tenantId) == f.filterTenant);
      When(IdSet(f.filterLease), l3, (p: Payment) => Some(p.leaseId) == f.filterLease)
        == Filter(payments, (p: Payment) => Pass4(f, tenantById, leaseById, propertyById, p))
  {
    var p3 := (p: Payment) => Pass3(f, tenantById, leaseById, propertyById, p);
    FilterThen(IdSet(f.filterTenant), payments,
      (p: Payment) => Pass2(f, tenantById, leaseById, propertyById, p),
      (p: Payment) => Some(p.tenantId) == f.filterTenant, p3);
    FilterThen(IdSet(f.filterLease), payments, p3,
      (p: Payment) => Some(p.leaseId) == f.filterLease,
      (p: Payment) => Pass4(f, tenantById, leaseById, propertyById, p));
  }

  lemma SelectedSteps56(
    payments: seq<Payment>, f: PaymentsFilters,
    tenantById: map<int, Tenant>, leaseById: map<int, Lease>, propertyById: map<int, Property>)
    ensures
      var l4 := Filter(payments, (p: Payment) => Pass4(f, tenantById, leaseById, propertyById, p));
      var l5 := When(StrSet(f.filterMethod), l4, (p: Payment) => Some(p.payMethod) == f.filterMethod);
      When(StrSet(f.filterStatus), l5, (p: Payment) => Some(p.status) == f.filterStatus)
        == Filter(payments, (p: Payment) => Pass6(f, tenantById, leaseById, propertyById, p))
  {
    var p5 := (p: Payment) => Pass5(f, tenantById, leaseById, propertyById, p);
    FilterThen(StrSet(f.filterMethod), payments,
      (p: Payment) => Pass4(f, tenantById, leaseById, propertyById, p),
      (p: Payment) => Some(p.payMethod) == f.filterMethod, p5);
    FilterThen(StrSet(f.filterStatus), payments, p5,
      (p: Payment) => Some(p.status) == f.filterStatus,
      (p: Payment) => Pass6(f, tenantById, leaseById, propertyById, p));
  }

  lemma SelectedSteps78(
    payments: seq<Payment>, f: PaymentsFilters,
    tenantById: map<int, Tenant>, leaseById: map<int, Lease>, propertyById: map<int, Property>,
    ms: DateMs)
    ensures
      var l6 := Filter(payments, (p: Payment) => Pass6(f, tenantById, leaseById, propertyById, p));
      var l7 := When(f.filterFrom != "", l6, (p: Payment) => ms(p.date) >= ms(f.filterFrom));
      When(f.filterTo != "", l7, (p: Payment) => ms(p.date) <= ms(f.filterTo))
        == Filter(payments, (p: Payment) => Pass8(f, tenantById, leaseById, propertyById, ms, p))
  {
    var p7 := (p: Payment) => Pass7(f, tenantById, leaseById, propertyById, ms, p);
    FilterThen(f.filterFrom != "", payments,
      (p: Payment) => Pass6(f, tenantById, leaseById, propertyById, p),
      (p: Payment) => ms(p.date) >= ms(f.filterFrom), p7);
    FilterThen(f.filterTo != "", payments, p7,
      (p: Payment) => ms(p.date) <= ms(f.filterTo),
      (p: Payment) => Pass8(f, tenantById, leaseById, propertyById, ms, p));
  }

  lemma PassesAreKeep(
    f: PaymentsFilters, tenantById: map<int, Tenant>, leaseById: map<int, Lease>, propertyById: map<int, Property>,
    ms: DateMs, p: Payment)
    ensures Pass8(f, tenantById, leaseById, propertyById, ms, p) == Keep(f, tenantById, leaseById, propertyById, ms, p)
  {
    if f.search != "" {
      AnyFieldIncludesAt(SearchFields(p, tenantById, leaseById, propertyById), f.search);
    }
  }

  /** The filter steps select exactly the payments passing every active test, in input order. */
  lemma SelectedIsFilter(
    payments: seq<Payment>, f: PaymentsFilters,
    tenantById: map<int, Tenant>, leaseById: map<int, Lease>, propertyById: map<int, Property>,
    ms: DateMs)
    ensures Selected(payments, f, tenantById, leaseById, propertyById, ms)
      == Filter(payments, (p: Payment) => Keep(f, tenantById, leaseById, propertyById, ms, p))
  {
    SelectedSteps12(payments, f, tenantById, leaseById, propertyById);
    SelectedSteps34(payments, f, tenantById, leaseById, propertyById);
    SelectedSteps56(payments, f, tenantById, leaseById, propertyById);
    SelectedSteps78(payments, f, tenantById, leaseById, propertyById, ms);
    forall p | p in payments
      ensures Pass8(f, tenantById, leaseById, propertyById, ms, p) == Keep(f, tenantById, leaseById, propertyById, ms, p)
    {
      PassesAreKeep(f, tenantById, leaseById, propertyById, ms, p);
    }
    FilterExt(payments,
      (p: Payment) => Pass8(f, tenantById, leaseById, propertyById, ms, p),
      (p: Payment) => Keep(f, tenantById, leaseById, propertyById, ms, p));
  }

  /** What the pipeline promises: its output holds each passing payment exactly as often
      as the input does and nothing else, ordered by the chosen key, with ties in input order. */
  lemma FilteredSpec(
    payments: seq<Payment>, f: PaymentsFilters,
    tenantById: map<int, Tenant>, leaseById: map<int, Lease>, propertyById: map<int, Property>,
    ms: DateMs)
    ensures var r := Filtered(payments, f, tenantById, leaseById, propertyById, ms);
      && (forall p :: multiset(r)[p] == if Keep(f, tenantById, leaseById, propertyById, ms, p) then multiset(payments)[p] else 0)
      && SortedBy(r, Order(f.sortBy, ms))
      && (forall x :: ClassOf(r, Order(f.sortBy, ms), x)
            == ClassOf(Filter(payments, (p: Payment) => Keep(f, tenantById, leaseById, propertyById, ms, p)), Order(f.sortBy, ms), x))
  {
    var keep := (p: Payment) => Keep(f, tenantById, leaseById, propertyById, ms, p);
    SelectedIsFilter(payments, f, tenantById, leaseById, propertyById, ms);
    OrderIsTotalPreorder(f.sortBy, ms);
    SortSpec(Filter(payments, keep), Order(f.sortBy, ms));
    forall p
      ensures multiset(Filtered(payments, f, tenantById, leaseById, propertyById, ms))[p]
        == if keep(p) then multiset(payments)[p] else 0
    {
      FilterMultiset(payments, keep, p);
    }
  }

  /** Soundness and completeness: a payment is listed exactly when it is in the input and
      passes every active test. */
  lemma FilteredMembership(
    payments: seq<Payment>, f: PaymentsFilters,
    tenantById: map<int, Tenant>, leaseById: map<int, Lease>, propertyById: map<int, Property>,
    ms: DateMs, p: Payment)
    ensures p in Filtered(payments, f, tenantById, leaseById, propertyById, ms)
      <==> p in payments && Keep(f, tenantById, leaseById, propertyById, ms, p)
  {
    FilteredSpec(payments, f, tenantById, leaseById, propertyById, ms);
    var r := Filtered(payments, f, tenantById, leaseById, propertyById, ms);
    assert p in r <==> multiset(r)[p] > 0;
    assert p in payments <==> multiset(payments)[p] > 0;
  }

  /** The orderings the three sort keys give. */
  lemma FilteredOrder(
    payments: seq<Payment>, f: PaymentsFilters,
    tenantById: map<int, Tenant>, leaseById: map<int, Lease>, propertyById: map<int, Property>,
    ms: DateMs)
    ensures var r := Filtered(payments, f, tenantById, leaseById, propertyById, ms);
      && (f.sortBy == "amount" ==> forall i, j :: 0 <= i < j < |r| ==> r[i].amount >= r[j].amount)
      && (f.sortBy == "status" ==> forall i, j :: 0 <= i < j < |r| ==> StrLe(r[i].status, r[j].status))
      && (f.sortBy != "amount" && f.sortBy != "status" ==>
            forall i, j :: 0 <= i < j < |r| ==> ms(r[i].date) >= ms(r[j].date))
  {
    FilteredSpec(payments, f, tenantById, leaseById, propertyById, ms);
  }

  /** A payment's status is one of the three the back end stores. */
  predicate ValidStatus(p: Payment) {
    p.status == "Completed" || p.status == "Pending" || p.status == "Overdue"
  }

  /** The status filter "Archived" (which the View Archive link puts in the URL) matches
      no payment with a valid status, so the list comes out empty. */
  lemma ArchivedStatusFilterIsEmpty(
    payments: seq<Payment>, f: PaymentsFilters,
    tenantById: map<int, Tenant>, leaseById: map<int, Lease>, propertyById: map<int, Property>,
    ms: DateMs)
    requires f.filterStatus == Some("Archived")
    requires forall i :: 0 <= i < |payments| ==> ValidStatus(payments[i])
    ensures Filtered(payments, f, tenantById, leaseById, propertyById, ms) == []
  {
    var r := Filtered(payments, f, tenantById, leaseById, propertyById, ms);
    if r != [] {
      FilteredMembership(payments, f, tenantById, leaseById, propertyById, ms, r[0]);
      var i :| 0 <= i < |payments| && payments[i] == r[0];
      assert false;
    }
  }

  // ---------------------------------------------------------------------------
  // `stats`

  datatype Stats = Stats(totalCount: int, completedCount: int, pendingCount: int, overdueCount: int, totalAmount: int)

  /** The sum of the amounts, `list.reduce((s, p) => s + p.amount, 0)`. */
  function TotalAmount(s: seq<Payment>): int {
    if s == [] then 0 else TotalAmount(s[..|s| - 1]) + s[|s| - 1].amount
  }

  function HasStatus(st: string): Payment -> bool {
    (p: Payment) => p.status == st
  }

  /** What `stats` must report for a list: its length, the number of payments with each
      of the three statuses, and the sum of the amounts. */
  function StatsOf(s: seq<Payment>): Stats {
    Stats(|s|, Count(s, HasStatus("Completed")), Count(s, HasStatus("Pending")),
      Count(s, HasStatus("Overdue")), TotalAmount(s))
  }

  lemma CountSnoc(s: seq<Payment>, x: Payment, p: Payment -> bool)
    ensures Count(s + [x], p) == Count(s, p) + (if p(x) then 1 else 0)
  {
    FilterAppend(s, [x], p);
  }

  /** The `stats` loop: one pass adding each amount and bumping the counter of its status. */
  method ComputeStats(filtered: seq<Payment>) returns (stats: Stats)
    ensures stats == StatsOf(filtered)
  {
    var totalCount := |filtered|;
    var completedCount, pendingCount, overdueCount := 0, 0, 0;
    var totalAmount := 0;
    StatusNamesDistinct();
    for i := 0 to |filtered|
      invariant completedCount == Count(filtered[..i], HasStatus("Completed"))
      invariant pendingCount == Count(filtered[..i], HasStatus("Pending"))
      invariant overdueCount == Count(filtered[..i], HasStatus("Overdue"))
      invariant totalAmount == TotalAmount(filtered[..i])
    {
      var p := filtered[i];
      TakeSnoc(filtered, i);
      CountSnoc(filtered[..i], p, HasStatus("Completed"));
      CountSnoc(filtered[..i], p, HasStatus("Pending"));
      CountSnoc(filtered[..i], p, HasStatus("Overdue"));
      totalAmount := totalAmount + p.amount;
      if p.status == "Completed" {
        completedCount := completedCount + 1;
      } else if p.status == "Pending" {
        pendingCount := pendingCount + 1;
      } else if p.status == "Overdue" {
        overdueCount := overdueCount + 1;
      }
    }
    assert filtered[..|filtered|] == filtered;
    stats := Stats(totalCount, completedCount, pendingCount, overdueCount, totalAmount);
  }

  lemma StatusNamesDistinct()
    ensures "Completed" != "Pending" && "Completed" != "Overdue" && "Pending" != "Overdue"
  {
  }

  /** The three status counters never add up to more than the number of payments, and
      exactly to it when every status is one of the three. */
  lemma {:induction false} StatusCountsBounded(s: seq<Payment>)
    ensures var st := StatsOf(s);
      st.completedCount + st.pendingCount + st.overdueCount <= st.totalCount
    ensures (forall i :: 0 <= i < |s| ==> ValidStatus(s[i])) ==>
      var st := StatsOf(s);
      st.completedCount + st.pendingCount + st.overdueCount == st.totalCount
  {
    if s != [] {
      var init := s[..|s| - 1];
      assert s == init + [s[|s| - 1]];
      StatusCountsBounded(init);
      CountSnoc(init, s[|s| - 1], HasStatus("Completed"));
      CountSnoc(init, s[|s| - 1], HasStatus("Pending"));
      CountSnoc(init, s[|s| - 1], HasStatus("Overdue"));
      if forall i :: 0 <= i < |s| ==> ValidStatus(s[i]) {
        assert forall i :: 0 <= i < |init| ==> init[i] == s[i];
        assert ValidStatus(s[|s| - 1]);
      }
    }
  }
}

/** The payments page (`pages/Payments.tsx`): pagination of the filtered list, the page
    cursor and its clamps, the `?status=` link, and the archive confirmation. */
module PaymentsPage {
  import opened Common
  import opened Entities
  import opened PaymentsData

  // ---------------------------------------------------------------------------
  // Pagination

  /** Rows per page: 10 in compact mode, 7 otherwise. */
  function PageSize(compact: bool): (n: int)
    ensures n > 0
    ensures compact ==> n == 10
    ensures !compact ==> n == 7
  {
    if compact then 10 else 7
  }

  /** `Math.max(1, Math.ceil(n / size))`: the fewest pages of `size` rows that hold `n`
      rows, and one page for an empty list. Counted a page at a time. */
  function TotalPages(n: nat, size: int): (pages: int)
    requires size > 0
    ensures pages >= 1
    ensures n <= pages * size
    ensures n > 0 ==> (pages - 1) * size < n
    ensures n <= size ==> pages == 1
    decreases n
  {
    if n <= size then 1 else 1 + TotalPages(n - size, size)
  }

  /** `filtered.slice((page - 1) * size, page * size)` for a page number of 1 or more:
      both ends are clamped to the list's length. */
  function PageData<T>(filtered: seq<T>, page: int, size: int): (r: seq<T>)
    requires page >= 1 && size > 0
    ensures |r| <= size
    ensures page > TotalPages(|filtered|, size) ==> r == []
    ensures (page - 1) * size < |filtered| ==>
      r == filtered[(page - 1) * size..Min(page * size, |filtered|)]
  {
    PageBounds(|filtered|, page, size);
    var first := (page - 1) * size;
    filtered[Min(first, |filtered|)..Min(first + size, |filtered|)]
  }

  /** A page spans `size` positions from a non-negative start; a page after the last one
      starts at or beyond the end of the list. */
  lemma PageBounds(n: nat, page: int, size: int)
    requires page >= 1 && size > 0
    ensures 0 <= (page - 1) * size && page * size == (page - 1) * size + size
    ensures page > TotalPages(n, size) ==> (page - 1) * size >= n
  {
    PastLastPage(n, page, size);
  }

  /** A page after the last one starts at or beyond the end of the list. */
  lemma PastLastPage(n: nat, page: int, size: int)
    requires size > 0
    ensures page > TotalPages(n, size) ==> (page - 1) * size >= n
  {
    var t := TotalPages(n, size);
    if page > t {
      MulMonotone(page - 1, t, size);
    }
  }

  lemma MulMonotone(a: int, b: int, c: int)
    requires a >= b && c > 0
    ensures a * c >= b * c
  {
    assert a * c == b * c + (a - b) * c;
  }

  /** Pages 1 to `k` in order, one after the other. */
  function Pages<T>(filtered: seq<T>, size: int, k: nat): seq<T>
    requires size > 0
  {
    if k == 0 then [] else Pages(filtered, size, k - 1) + PageData(filtered, k, size)
  }

  /** The first `k` pages together are the list's first `k * size` rows (or all of it). */
  lemma {:induction false} PagesArePrefix<T>(filtered: seq<T>, size: int, k: nat)
    requires size > 0
    ensures Pages(filtered, size, k) == filtered[..Min(k * size, |filtered|)]
  {
    if k > 0 {
      PagesArePrefix(filtered, size, k - 1);
      PageBounds(|filtered|, k, size);
      var first := (k - 1) * size;
      var a := Min(first, |filtered|);
      var b := Min(first + size, |filtered|);
      assert PageData(filtered, k, size) == filtered[a..b];
      PrefixJoin(filtered, a, b);
    }
  }

  lemma PrefixJoin<T>(s: seq<T>, a: nat, b: nat)
    requires a <= b <= |s|
    ensures s[..a] + s[a..b] == s[..b]
  {
  }

  /** The pages partition the list: pages 1 to `totalPages`, joined, are exactly the
      filtered list, in order, with nothing repeated or left out. */
  lemma PagesPartition<T>(filtered: seq<T>, compact: bool)
    ensures Pages(filtered, PageSize(compact), TotalPages(|filtered|, PageSize(compact))) == filtered
  {
    var size := PageSize(compact);
    var total := TotalPages(|filtered|, size);
    PagesArePrefix(filtered, size, total);
    assert Min(total * size, |filtered|) == |filtered|;
  }

  /** The page cursor (`page`) and the compact switch. */
  class Pager {
    var page: int
    var compact: bool

    /** The page never drops below 1. */
    ghost predicate Valid()
      reads this
    {
      page >= 1
    }

    /** The page starts at 1, compact mode off. */
    constructor()
      ensures Valid()
      ensures page == 1 && !compact
    {
      page := 1;
      compact := false;
    }

    /** Previous: one page back, never below page 1. */
    method Prev()
      requires Valid()
      modifies this
      ensures Valid()
      ensures page == Max(1, old(page) - 1) && compact == old(compact)
    {
      page := Max(1, page - 1);
    }

    /** Next: one page on, never past the last page. */
    method Next(totalPages: int)
      requires Valid() && totalPages >= 1
      modifies this
      ensures Valid()
      ensures page == Min(totalPages, old(page) + 1) && page <= totalPages && compact == old(compact)
    {
      page := Min(totalPages, page + 1);
    }

    /** The compact switch; the effect watching it puts the page back to 1. */
    method ToggleCompact()
      requires Valid()
      modifies this
      ensures Valid()
      ensures compact == !old(compact) && page == 1
    {
      compact := !compact;
      page := 1;
    }

    /** Any change of the filters puts the page back to 1. */
    method FiltersChanged()
      requires Valid()
      modifies this
      ensures Valid()
      ensures page == 1 && compact == old(compact)
    {
      page := 1;
    }

    /** The rows this page shows. */
    function Rows<T>(filtered: seq<T>): (r: seq<T>)
      requires Valid()
      reads this
      ensures |r| <= PageSize(compact)
    {
      PageData(filtered, page, PageSize(compact))
    }
  }

  /** The page is not clamped when the list shrinks without a filter change (a row archived
      or deleted from the last page, say): the cursor can then point past the last page,
      which shows no rows. */
  lemma StalePageIsEmpty<T>(filtered: seq<T>, page: int, compact: bool)
    requires page >= 1 && page > TotalPages(|filtered|, PageSize(compact))
    ensures PageData(filtered, page, PageSize(compact)) == []
  {
  }

  // ---------------------------------------------------------------------------
  // `?status=` link

  /** Any non-empty `status` parameter becomes the status filter verbatim. */
  function ApplyStatusParam(f: PaymentsFilters, status: Option<string>): (r: PaymentsFilters)
    ensures StrSet(status) ==> r == f.(filterStatus := status)
    ensures !StrSet(status) ==> r == f
  {
    if StrSet(status) then SetFilter(f, SetFilterStatus(status)) else f
  }

  /** The View Archive link (`?status=Archived`) lists nothing: no stored payment has the
      status "Archived", whatever the other filters are. */
  lemma ViewArchiveLinkListsNothing(
    payments: seq<Payment>, f: PaymentsFilters,
    tenantById: map<int, Tenant>, leaseById: map<int, Lease>, propertyById: map<int, Property>,
    ms: DateMs)
    requires forall i :: 0 <= i < |payments| ==> ValidStatus(payments[i])
    ensures Filtered(payments, ApplyStatusParam(f, Some("Archived")), tenantById, leaseById, propertyById, ms) == []
  {
    ArchivedStatusFilterIsEmpty(payments, ApplyStatusParam(f, Some("Archived")), tenantById, leaseById, propertyById, ms);
  }

  // ---------------------------------------------------------------------------
  // Archive confirmation

  /** A request the page sends for one payment: a permanent delete, or an archive update. */
  datatype PaymentRequest = Remove(id: int) | SetArchived(id: int, archived: bool)

  /** The id −1 in the confirmation stands for "the whole selection". */
  const Bulk: int := -1

  /** The confirmation as the page has it: for −1, `bulkDelete` of the selection, which
      deletes each payment permanently, and the selection is cleared; for any other id,
      that payment is archived and the selection kept. */
  function ConfirmAsWritten(confirmId: int, selected: set<int>): (r: (set<PaymentRequest>, set<int>))
    ensures confirmId == Bulk ==> r.1 == {}
    ensures confirmId != Bulk ==> r == ({SetArchived(confirmId, true)}, selected)
  {
    if confirmId == Bulk then (set id | id in selected :: Remove(id), {})
    else ({SetArchived(confirmId, true)}, selected)
  }

  /** The bulk confirmation, as written, deletes every selected payment and archives none,
      although its dialog says they will be moved to the archive. */
  lemma BulkConfirmDeletes(selected: set<int>)
    ensures var (reqs, _) := ConfirmAsWritten(Bulk, selected);
      && (forall id :: id in selected ==> Remove(id) in reqs)
      && (forall r :: r in reqs ==> r.Remove?)
  {
  }

  /** A concrete case: with payment 7 selected, bulk confirmation sends a permanent delete
      for it, not an archive update. */
  lemma BulkConfirmDeletesExample()
    ensures Remove(7) in ConfirmAsWritten(Bulk, {7}).0
    ensures SetArchived(7, true) !in ConfirmAsWritten(Bulk, {7}).0
  {
    assert ConfirmAsWritten(Bulk, {7}).0 == {Remove(7)};
  }

  /** The confirmation as its dialog describes it: for −1, every selected payment is
      archived and the selection cleared; for any other id, that payment is archived. */
  function Confirm(confirmId: int, selected: set<int>): (r: (set<PaymentRequest>, set<int>))
    ensures confirmId == Bulk ==> r.1 == {}
    ensures confirmId != Bulk ==> r == ({SetArchived(confirmId, true)}, selected)
    ensures forall q :: q in r.0 ==> q.SetArchived? && q.archived
    ensures confirmId == Bulk ==> forall id :: SetArchived(id, true) in r.0 <==> id in selected
  {
    if confirmId == Bulk then (set id | id in selected :: SetArchived(id, true), {})
    else ({SetArchived(confirmId, true)}, selected)
  }

  /** Bulk confirmation of a one-payment selection does what confirming that payment alone
      does (up to the selection being cleared), and the two confirmations differ only there. */
  lemma BulkOfOneIsSingle(id: int)
    requires id != Bulk
    ensures Confirm(Bulk, {id}).0 == Confirm(id, {id}).0
    ensures ConfirmAsWritten(Bulk, {id}).0 != ConfirmAsWritten(id, {id}).0
  {
    assert Confirm(Bulk, {id}).0 == {SetArchived(id, true)};
    assert ConfirmAsWritten(Bulk, {id}).0 == {Remove(id)};
  }
}

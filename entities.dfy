/** The records the dashboard loads from its REST back end (`types/entities.ts`).
    Ids and amounts are integers; the enumerated fields keep the string values the
    back end stores, since the filters compare them as strings; dates are the ISO
    strings as stored, read as millisecond timestamps by a `DateMs` parameter where
    the source calls `new Date(...)`. `archived` is optional in every record. */
module Entities {
  import opened Common
  import opened Text

  datatype Property = Property(
    id: int,
    archived: Option<bool>,
    name: string,
    location: string,
    totalUnits: int,
    occupiedUnits: int,
    monthlyRevenue: int,
    status: string)

  datatype Tenant = Tenant(
    id: int,
    archived: Option<bool>,
    name: string,
    unit: string,
    phone: string,
    rentAmount: int,
    status: string,
    paymentStatus: string,
    propertyId: int)

  datatype Lease = Lease(
    id: int,
    archived: Option<bool>,
    propertyId: int,
    tenantId: int,
    unit: string,
    startDate: string,
    endDate: string,
    rentAmount: int,
    status: string)

  datatype Payment = Payment(
    id: int,
    archived: Option<bool>,
    tenantId: int,
    leaseId: int,
    amount: int,
    payMethod: string,
    date: string,
    status: string,
    reference: string)

  datatype MaintenanceRequest = MaintenanceRequest(
    id: int,
    archived: Option<bool>,
    propertyId: int,
    tenantId: Option<int>,
    title: string,
    priority: string,
    status: string,
    dateSubmitted: string,
    estimatedCost: Option<int>)

  /** The argument of every archive mutation, `{ id, archived }`: archive or restore one record. */
  datatype ArchiveRequest = ArchiveRequest(id: int, archived: bool)

  /** `+new Date(s)`: the millisecond timestamp of a stored date string. */
  type DateMs = string -> int

  /** `new Map(list.map((x) => [x.id, x]))`: an id index in which a later entry with a
      repeated id replaces an earlier one. */
  function IndexBy<T>(s: seq<T>, key: T -> int): (m: map<int, T>)
    ensures forall i :: 0 <= i < |s| ==> key(s[i]) in m
    ensures forall k :: k in m ==> exists i :: 0 <= i < |s| && key(s[i]) == k && m[k] == s[i]
  {
    if s == [] then map[]
    else
      var m' := IndexBy(s[..|s| - 1], key);
      assert forall i :: 0 <= i < |s| - 1 ==> s[..|s| - 1][i] == s[i];
      m'[key(s[|s| - 1]) := s[|s| - 1]]
  }

  /** The index maps each id to the last element carrying it. */
  lemma {:induction false} IndexByLast<T>(s: seq<T>, key: T -> int, i: nat)
    requires i < |s|
    requires forall j :: i < j < |s| ==> key(s[j]) != key(s[i])
    ensures IndexBy(s, key)[key(s[i])] == s[i]
  {
    if i < |s| - 1 {
      var init := s[..|s| - 1];
      assert forall j :: i < j < |init| ==> init[j] == s[j];
      IndexByLast(init, key, i);
      assert init[i] == s[i];
    }
  }

  function PropertyById(ps: seq<Property>): map<int, Property> {
    IndexBy(ps, (p: Property) => p.id)
  }

  function TenantById(ts: seq<Tenant>): map<int, Tenant> {
    IndexBy(ts, (t: Tenant) => t.id)
  }

  function LeaseById(ls: seq<Lease>): map<int, Lease> {
    IndexBy(ls, (l: Lease) => l.id)
  }

  /** `byId.get(id)?.name`: the name of the record an id points at, absent when the
      index does not hold the id. */
  function NameById<T>(byId: map<int, T>, id: int, name: T -> string): (r: Option<string>)
    ensures r.Some? <==> id in byId
    ensures r.Some? ==> r.value == name(byId[id])
  {
    if id in byId then Some(name(byId[id])) else None
  }

  /** `byId.get(id)?.name ?? String(id)`: the table and export cell of a referenced
      record, its name, or its id when the lookup fails. */
  function NameOrId<T>(byId: map<int, T>, id: int, name: T -> string): (cell: string)
    ensures id in byId ==> cell == name(byId[id])
    ensures id !in byId ==> cell == IntToString(id)
  {
    NameById(byId, id, name).GetOr(IntToString(id))
  }

  function PropertyNameOf(p: Property): string { p.name }

  function TenantNameOf(t: Tenant): string { t.name }

  /** The name lookups of the two indexes the pages build. */
  function PropertyName(byId: map<int, Property>, id: int): Option<string> {
    NameById(byId, id, PropertyNameOf)
  }

  function TenantName(byId: map<int, Tenant>, id: int): Option<string> {
    NameById(byId, id, TenantNameOf)
  }

  /** Restore, on every archive page: the chosen record's id with `archived: false`. */
  function Restore(id: int): (r: ArchiveRequest)
    ensures r.id == id && !r.archived
  {
    ArchiveRequest(id, false)
  }

  /** The archive toggle of a list row: the record's id and the negation of its
      archived flag. */
  function ArchiveToggle(id: int, archived: Option<bool>): (r: ArchiveRequest)
    ensures r.id == id
    ensures r.archived <==> !Truthy(archived)
  {
    ArchiveRequest(id, !Truthy(archived))
  }
}

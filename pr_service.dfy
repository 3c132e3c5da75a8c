/** `PurchaseRequestService` (app/services/purchase_request.py) over the purchase_requests and
    purchase_request_items tables. */
module PurchaseRequests {
  import opened Enums
  import opened Errors
  import opened Queries
  import opened PurchaseRequestModels
  import opened PurchaseRequestSchemas
  import opened RequestNumbers
  import opened PurchaseRequestWorkflow

  /** The item row an item line of a payload becomes. */
  function NewItem(requestId: Id, spec: PurchaseRequestItemCreate): PurchaseRequestItem
  {
    PurchaseRequestItem(requestId, spec.product, spec.quantity, spec.estimatedPrice, spec.supplier)
  }

  /** The rows for a payload's item lines, one for one and in order. */
  function ToItems(requestId: Id, specs: seq<PurchaseRequestItemCreate>): (items: seq<PurchaseRequestItem>)
    ensures |items| == |specs|
    ensures forall i :: 0 <= i < |specs| ==> items[i] == NewItem(requestId, specs[i])
  {
    if specs == [] then []
    else ToItems(requestId, specs[..|specs| - 1]) + [NewItem(requestId, specs[|specs| - 1])]
  }

  /** `pr.items`: the item rows of one request, in table order. */
  function ItemsOf(items: seq<PurchaseRequestItem>, requestId: Id): (own: seq<PurchaseRequestItem>)
    ensures forall x :: x in own <==> x in items && x.requestId == requestId
  {
    if items == [] then []
    else (if items[0].requestId == requestId then [items[0]] else []) + ItemsOf(items[1..], requestId)
  }

  /** The item table without the rows of the given requests. */
  function DropItems(items: seq<PurchaseRequestItem>, ids: seq<Id>): (kept: seq<PurchaseRequestItem>)
    ensures forall x :: x in kept <==> x in items && x.requestId !in ids
  {
    if items == [] then []
    else (if items[0].requestId in ids then [] else [items[0]]) + DropItems(items[1..], ids)
  }

  /** The request table without the requests of the given ids. */
  function Drop(rs: seq<PurchaseRequest>, ids: seq<Id>): (kept: seq<PurchaseRequest>)
    ensures forall r :: r in kept <==> r in rs && r.id !in ids
  {
    if rs == [] then []
    else (if rs[0].id in ids then [] else [rs[0]]) + Drop(rs[1..], ids)
  }

  function RequestIds(rs: seq<PurchaseRequest>): (ids: set<Id>)
    ensures forall r :: r in rs ==> r.id in ids
    ensures forall id :: id in ids ==> exists r :: r in rs && r.id == id
  {
    set r | r in rs :: r.id
  }

  lemma {:induction false} ItemsOfConcat(a: seq<PurchaseRequestItem>, b: seq<PurchaseRequestItem>, requestId: Id)
    ensures ItemsOf(a + b, requestId) == ItemsOf(a, requestId) + ItemsOf(b, requestId)
  {
    if a == [] {
      assert a + b == b;
    } else {
      assert (a + b)[1..] == a[1..] + b;
      ItemsOfConcat(a[1..], b, requestId);
    }
  }

  /** The rows made for one request are exactly that request's items. */
  lemma {:induction false} ItemsOfToItems(requestId: Id, specs: seq<PurchaseRequestItemCreate>, other: Id)
    ensures ItemsOf(ToItems(requestId, specs), requestId) == ToItems(requestId, specs)
    ensures other != requestId ==> ItemsOf(ToItems(requestId, specs), other) == []
  {
    if specs != [] {
      var front := specs[..|specs| - 1];
      var last := NewItem(requestId, specs[|specs| - 1]);
      assert ToItems(requestId, specs) == ToItems(requestId, front) + [last];
      assert [last][1..] == [];
      ItemsOfToItems(requestId, front, other);
      ItemsOfConcat(ToItems(requestId, front), [last], requestId);
      ItemsOfConcat(ToItems(requestId, front), [last], other);
    }
  }

  lemma {:induction false} ItemsOfDropItems(items: seq<PurchaseRequestItem>, ids: seq<Id>, requestId: Id)
    ensures ItemsOf(DropItems(items, ids), requestId) == if requestId in ids then [] else ItemsOf(items, requestId)
  {
    if items != [] {
      ItemsOfDropItems(items[1..], ids, requestId);
      var head := if items[0].requestId in ids then [] else [items[0]];
      ItemsOfConcat(head, DropItems(items[1..], ids), requestId);
    }
  }

  lemma {:induction false} ItemsOfAbsent(items: seq<PurchaseRequestItem>, requestId: Id)
    requires forall x :: x in items ==> x.requestId != requestId
    ensures ItemsOf(items, requestId) == []
  {
    if items != [] {
      assert items[0] in items;
      ItemsOfAbsent(items[1..], requestId);
    }
  }

  /** Deleting one more request's items, one request at a time. */
  lemma {:induction false} DropItemsStep(items: seq<PurchaseRequestItem>, ids: seq<Id>, d: Id)
    ensures DropItems(DropItems(items, ids), [d]) == DropItems(items, ids + [d])
  {
    if items != [] {
      DropItemsStep(items[1..], ids, d);
      var t := DropItems(items[1..], ids);
      if items[0].requestId in ids {
        assert DropItems(items, ids) == t;
        assert items[0].requestId in ids + [d];
      } else {
        assert DropItems(items, ids) == [items[0]] + t;
        assert ([items[0]] + t)[1..] == t;
      }
    }
  }

  /** Deleting one more request, one at a time. */
  lemma {:induction false} DropStep(rs: seq<PurchaseRequest>, ids: seq<Id>, d: Id)
    ensures Drop(Drop(rs, ids), [d]) == Drop(rs, ids + [d])
  {
    if rs != [] {
      DropStep(rs[1..], ids, d);
      var t := Drop(rs[1..], ids);
      if rs[0].id in ids {
        assert Drop(rs, ids) == t;
        assert rs[0].id in ids + [d];
      } else {
        assert Drop(rs, ids) == [rs[0]] + t;
        assert ([rs[0]] + t)[1..] == t;
      }
    }
  }

  lemma {:induction false} DropNothing(rs: seq<PurchaseRequest>)
    ensures Drop(rs, []) == rs
  {
    if rs != [] {
      DropNothing(rs[1..]);
    }
  }

  lemma {:induction false} DropItemsNothing(items: seq<PurchaseRequestItem>)
    ensures DropItems(items, []) == items
  {
    if items != [] {
      DropItemsNothing(items[1..]);
    }
  }

  /** Removing the first request keeps the keys unique. */
  lemma TailKeepsKeys(rs: seq<PurchaseRequest>)
    requires rs != [] && UniqueIds(rs) && UniqueNumbers(rs)
    ensures UniqueIds(rs[1..]) && UniqueNumbers(rs[1..])
  {
    var tail := rs[1..];
    forall i, j | 0 <= i < j < |tail|
      ensures tail[i].id != tail[j].id
      ensures tail[i].org == tail[j].org ==> tail[i].requestNumber != tail[j].requestNumber
    {
      assert tail[i] == rs[i + 1] && tail[j] == rs[j + 1];
    }
  }

  /** Deleting requests keeps ids and per-organisation request numbers unique. */
  lemma {:induction false} DropKeepsKeys(rs: seq<PurchaseRequest>, ids: seq<Id>)
    requires UniqueIds(rs) && UniqueNumbers(rs)
    ensures UniqueIds(Drop(rs, ids)) && UniqueNumbers(Drop(rs, ids))
  {
    if rs != [] {
      var tail := rs[1..];
      TailKeepsKeys(rs);
      DropKeepsKeys(tail, ids);
      var t := Drop(tail, ids);
      if rs[0].id !in ids {
        assert Drop(rs, ids) == [rs[0]] + t;
        forall j | 0 <= j < |t|
          ensures rs[0].id != t[j].id
          ensures rs[0].org == t[j].org ==> rs[0].requestNumber != t[j].requestNumber
        {
          assert t[j] in tail;
          var k :| 0 <= k < |tail| && tail[k] == t[j];
          assert rs[k + 1] == t[j];
        }
      }
    }
  }

  /** Rewriting one request in place, keeping its id, organisation and number, keeps the keys. */
  lemma ReplaceKeepsKeys(rs: seq<PurchaseRequest>, i: nat, pr: PurchaseRequest)
    requires i < |rs| && UniqueIds(rs) && UniqueNumbers(rs)
    requires pr.id == rs[i].id && pr.org == rs[i].org && pr.requestNumber == rs[i].requestNumber
    ensures UniqueIds(rs[i := pr]) && UniqueNumbers(rs[i := pr])
    ensures RequestIds(rs[i := pr]) == RequestIds(rs)
  {
    var after := rs[i := pr];
    forall id | id in RequestIds(rs) ensures id in RequestIds(after) {
      var r :| r in rs && r.id == id;
      var k :| 0 <= k < |rs| && rs[k] == r;
      assert after[k].id == id;
    }
    forall id | id in RequestIds(after) ensures id in RequestIds(rs) {
      var r :| r in after && r.id == id;
      var k :| 0 <= k < |after| && after[k] == r;
      assert rs[k].id == id;
    }
  }

  /** The table invariant: ids and per-organisation numbers are unique, ids are below the next
      id to hand out, the status columns agree with the status, and every item row belongs to
      an existing request and has a positive quantity. */
  ghost predicate Consistent(rs: seq<PurchaseRequest>, items: seq<PurchaseRequestItem>, nextId: nat)
  {
    && UniqueIds(rs)
    && UniqueNumbers(rs)
    && (forall r :: r in rs ==> r.id < nextId && Stamped(r))
    && (forall x :: x in items ==> x.requestId in RequestIds(rs) && x.quantity > 0)
  }

  /** Adding a fresh DRAFT-like request under a fresh number, with its valid item lines. */
  lemma CreateKeepsConsistent(rs: seq<PurchaseRequest>, items: seq<PurchaseRequestItem>, nextId: nat,
                              pr: PurchaseRequest, specs: seq<PurchaseRequestItemCreate>)
    requires Consistent(rs, items, nextId)
    requires pr.id == nextId && Stamped(pr) && AllValid(specs)
    requires forall r :: r in rs && r.org == pr.org ==> r.requestNumber != pr.requestNumber
    ensures Consistent(rs + [pr], items + ToItems(pr.id, specs), nextId + 1)
  {
    var rs' := rs + [pr];
    assert UniqueIds(rs') && UniqueNumbers(rs') by {
      forall i, j | 0 <= i < j < |rs'|
        ensures rs'[i].id != rs'[j].id
        ensures rs'[i].org == rs'[j].org ==> rs'[i].requestNumber != rs'[j].requestNumber
      {
        if j == |rs| {
          assert rs'[i] in rs;
        }
      }
    }
    forall x | x in items + ToItems(pr.id, specs)
      ensures x.requestId in RequestIds(rs') && x.quantity > 0
    {
      if x in items {
        var r :| r in rs && r.id == x.requestId;
        assert r in rs';
      } else {
        var k :| 0 <= k < |specs| && ToItems(pr.id, specs)[k] == x;
        assert pr in rs';
      }
    }
  }

  /** The request created under the next id owns exactly the rows made for its item lines. */
  lemma NewRequestOwnsItsRows(rs: seq<PurchaseRequest>, items: seq<PurchaseRequestItem>, nextId: nat,
                              specs: seq<PurchaseRequestItemCreate>)
    requires Consistent(rs, items, nextId)
    ensures ItemsOf(items + ToItems(nextId, specs), nextId) == ToItems(nextId, specs)
  {
    forall x | x in items ensures x.requestId != nextId {
      var r :| r in rs && r.id == x.requestId;
    }
    ItemsOfAbsent(items, nextId);
    ItemsOfToItems(nextId, specs, nextId);
    ItemsOfConcat(items, ToItems(nextId, specs), nextId);
  }

  /** Rewriting one request in place, keeping its keys and its status columns consistent. */
  lemma ReplaceKeepsConsistent(rs: seq<PurchaseRequest>, items: seq<PurchaseRequestItem>, nextId: nat,
                               i: nat, pr: PurchaseRequest)
    requires Consistent(rs, items, nextId) && i < |rs| && Stamped(pr)
    requires pr.id == rs[i].id && pr.org == rs[i].org && pr.requestNumber == rs[i].requestNumber
    ensures Consistent(rs[i := pr], items, nextId)
  {
    ReplaceKeepsKeys(rs, i, pr);
    assert rs[i] in rs;
  }

  /** Replacing all item rows of an existing request by valid item lines. */
  lemma ReplaceItemsKeepsConsistent(rs: seq<PurchaseRequest>, items: seq<PurchaseRequestItem>, nextId: nat,
                                    id: Id, specs: seq<PurchaseRequestItemCreate>)
    requires Consistent(rs, items, nextId) && id in RequestIds(rs) && AllValid(specs)
    ensures Consistent(rs, DropItems(items, [id]) + ToItems(id, specs), nextId)
  {
    forall x | x in DropItems(items, [id]) + ToItems(id, specs)
      ensures x.requestId in RequestIds(rs) && x.quantity > 0
    {
      if x !in DropItems(items, [id]) {
        var k :| 0 <= k < |specs| && ToItems(id, specs)[k] == x;
      }
    }
  }

  /** Deleting a request together with its item rows leaves no orphan item. */
  lemma DeleteKeepsConsistent(rs: seq<PurchaseRequest>, items: seq<PurchaseRequestItem>, nextId: nat, id: Id)
    requires Consistent(rs, items, nextId)
    ensures Consistent(Drop(rs, [id]), DropItems(items, [id]), nextId)
  {
    DropKeepsKeys(rs, [id]);
    forall x | x in DropItems(items, [id]) ensures x.requestId in RequestIds(Drop(rs, [id])) {
      var r :| r in rs && r.id == x.requestId;
      assert r in Drop(rs, [id]);
    }
  }

  /** The requests a listing may show. */
  function Listed(rs: seq<PurchaseRequest>, org: Id, user: Id, role: Role, statusFilter: Option<RequestStatus>)
    : (r: seq<PurchaseRequest>)
    ensures forall x :: x in r <==> x in rs && Visible(x, org, user, role, statusFilter)
  {
    if rs == [] then []
    else
      (if Visible(rs[0], org, user, role, statusFilter) then [rs[0]] else [])
      + Listed(rs[1..], org, user, role, statusFilter)
  }

  /** `get_all`: one page of the visible requests, newest first. */
  function GetAll(rs: seq<PurchaseRequest>, org: Id, user: Id, role: Role, statusFilter: Option<RequestStatus>,
                  skip: nat, limit: nat): (page: seq<PurchaseRequest>)
    ensures forall x :: x in page ==> x in rs && Visible(x, org, user, role, statusFilter)
    ensures NewestFirst(page, RequestTime)
    ensures |page| <= limit
    ensures skip == 0 && |Listed(rs, org, user, role, statusFilter)| <= limit ==>
      forall x :: x in rs && Visible(x, org, user, role, statusFilter) ==> x in page
    ensures var sel := Listed(rs, org, user, role, statusFilter);
      |page| == (if skip >= |sel| then 0 else Min(limit, |sel| - skip))
      && exists t :: NewestFirst(t, RequestTime) && multiset(t) == multiset(sel) && page == Page(t, skip, limit)
  {
    NewestPage(Listed(rs, org, user, role, statusFilter), RequestTime, skip, limit)
  }

  /** A STAFF listing shows only the caller's own requests, whatever the filter. */
  lemma StaffListOnlyOwn(rs: seq<PurchaseRequest>, org: Id, user: Id, statusFilter: Option<RequestStatus>,
                         skip: nat, limit: nat, x: PurchaseRequest)
    requires x in GetAll(rs, org, user, STAFF, statusFilter, skip, limit)
    ensures x.createdBy == user && x.org == org
  {
  }

  /** A manager's unfiltered first page, when large enough, shows every request of the
      organisation, whoever created it. */
  lemma ManagersSeeWholeOrganisation(rs: seq<PurchaseRequest>, org: Id, user: Id, role: Role, limit: nat, x: PurchaseRequest)
    requires IsManagerRole(role)
    requires |Listed(rs, org, user, role, None)| <= limit
    requires x in rs && x.org == org
    ensures x in GetAll(rs, org, user, role, None, 0, limit)
  {
  }

  class PurchaseRequestService {
    var requests: seq<PurchaseRequest>
    var items: seq<PurchaseRequestItem>
    /** The id the next created request receives. */
    var nextId: nat

    ghost predicate Valid()
      reads this
    {
      Consistent(requests, items, nextId)
    }

    constructor ()
      ensures Valid() && requests == [] && items == []
    {
      requests := [];
      items := [];
      nextId := 0;
    }

    /** The loop of `create` and `update` that adds one item row per item line, in order. */
    method AddItems(requestId: Id, specs: seq<PurchaseRequestItemCreate>)
      modifies this`items
      ensures items == old(items) + ToItems(requestId, specs)
    {
      for i := 0 to |specs|
        invariant items == old(items) + ToItems(requestId, specs[..i])
      {
        assert specs[..i + 1][..i] == specs[..i];
        items := items + [NewItem(requestId, specs[i])];
      }
      assert specs[..|specs|] == specs;
    }

    /** `create`: a new DRAFT request of the caller, numbered after the highest number the
        organisation has used, with no approval or rejection columns set and one item row per
        item line. */
    method Create(org: Id, user: Id, p: PurchaseRequestCreate, now: Time) returns (pr: PurchaseRequest)
      requires Valid() && p.Valid()
      modifies this`requests, this`items, this`nextId
      ensures Valid()
      ensures pr == PurchaseRequest(old(nextId), org, NextRequestNumber(old(requests), org), DRAFT, user,
                                    None, None, None, None, None, p.notes, now)
      ensures requests == old(requests) + [pr]
      ensures items == old(items) + ToItems(pr.id, p.items)
      ensures ItemsOf(items, pr.id) == ToItems(pr.id, p.items)
      ensures nextId == old(nextId) + 1
    {
      pr := PurchaseRequest(nextId, org, NextRequestNumber(requests, org), DRAFT, user,
                            None, None, None, None, None, p.notes, now);
      NextRequestNumberIsFresh(requests, org);
      CreateKeepsConsistent(requests, items, nextId, pr, p.items);
      NewRequestOwnsItsRows(requests, items, nextId, p.items);
      requests := requests + [pr];
      nextId := nextId + 1;
      AddItems(pr.id, p.items);
    }

    /** `update`: after the 404, ownership 403 and DRAFT-only 422 checks, notes are replaced when
        given and a given item list replaces every item of the request, in order. Other requests'
        items never change; on failure nothing changes. */
    method Update(org: Id, id: Id, user: Id, role: Role, p: PurchaseRequestUpdate) returns (r: Result<PurchaseRequest>)
      requires Valid() && p.Valid()
      modifies this`requests, this`items
      ensures Valid()
      ensures var g := EditGuard(old(requests), org, id, user, role);
        && (g.Failure? ==> r == Failure(g.error) && requests == old(requests) && items == old(items))
        && (g.Success? ==>
              var before := old(requests)[g.value];
              && r == Success(before.(notes := if p.notes.Some? then p.notes else before.notes))
              && requests == old(requests)[g.value := r.value]
              && items == if p.items.Some? then DropItems(old(items), [id]) + ToItems(id, p.items.value) else old(items))
      ensures r.Success? ==> r.value.status == DRAFT
      ensures r.Success? && p.items.Some? ==> ItemsOf(items, id) == ToItems(id, p.items.value)
      ensures forall other :: other != id ==> ItemsOf(items, other) == ItemsOf(old(items), other)
    {
      var g := EditGuard(requests, org, id, user, role);
      if g.Failure? {
        return Failure(g.error);
      }
      var pr := requests[g.value].(notes := if p.notes.Some? then p.notes else requests[g.value].notes);
      Replace(g.value, pr);
      if p.items.Some? {
        assert requests[g.value] == pr;
        ReplaceItems(id, p.items.value);
      }
      r := Success(pr);
    }

    /** `submit`: the creator (or a manager) moves a DRAFT to SUBMITTED. */
    method Submit(org: Id, id: Id, user: Id, role: Role) returns (r: Result<PurchaseRequest>)
      requires Valid()
      modifies this`requests
      ensures Valid()
      ensures var g := TransitionGuard(old(requests), org, id, user, role, SUBMITTED, true);
        && (g.Failure? ==> r == Failure(g.error) && requests == old(requests))
        && (g.Success? ==>
              && r == Success(old(requests)[g.value].(status := SUBMITTED))
              && requests == old(requests)[g.value := r.value])
    {
      var g := TransitionGuard(requests, org, id, user, role, SUBMITTED, true);
      if g.Failure? {
        return Failure(g.error);
      }
      var pr := requests[g.value].(status := SUBMITTED);
      Replace(g.value, pr);
      r := Success(pr);
    }

    /** `approve`: a manager moves a SUBMITTED request to APPROVED and stamps who approved it
        and when. */
    method Approve(org: Id, id: Id, user: Id, role: Role, now: Time) returns (r: Result<PurchaseRequest>)
      requires Valid()
      modifies this`requests
      ensures Valid()
      ensures var g := TransitionGuard(old(requests), org, id, user, role, APPROVED, false);
        && (g.Failure? ==> r == Failure(g.error) && requests == old(requests))
        && (g.Success? ==>
              && r == Success(old(requests)[g.value].(status := APPROVED, approvedBy := Some(user), approvedAt := Some(now)))
              && requests == old(requests)[g.value := r.value])
    {
      var g := TransitionGuard(requests, org, id, user, role, APPROVED, false);
      if g.Failure? {
        return Failure(g.error);
      }
      var pr := requests[g.value].(status := APPROVED, approvedBy := Some(user), approvedAt := Some(now));
      Replace(g.value, pr);
      r := Success(pr);
    }

    /** `reject`: a manager moves a SUBMITTED request to REJECTED and stamps who rejected it,
        when, and the (non-empty) reason. */
    method Reject(org: Id, id: Id, user: Id, role: Role, body: PurchaseRequestReject, now: Time)
      returns (r: Result<PurchaseRequest>)
      requires Valid() && body.Valid()
      modifies this`requests
      ensures Valid()
      ensures var g := TransitionGuard(old(requests), org, id, user, role, REJECTED, false);
        && (g.Failure? ==> r == Failure(g.error) && requests == old(requests))
        && (g.Success? ==>
              && r == Success(old(requests)[g.value].(status := REJECTED, rejectedBy := Some(user),
                                                      rejectedAt := Some(now), rejectionReason := Some(body.rejectionReason)))
              && requests == old(requests)[g.value := r.value])
    {
      var g := TransitionGuard(requests, org, id, user, role, REJECTED, false);
      if g.Failure? {
        return Failure(g.error);
      }
      var pr := requests[g.value].(status := REJECTED, rejectedBy := Some(user),
                                   rejectedAt := Some(now), rejectionReason := Some(body.rejectionReason));
      Replace(g.value, pr);
      r := Success(pr);
    }

    /** `mark_ordered`: any role moves an APPROVED request to ORDERED; the approval stamps stay. */
    method MarkOrdered(org: Id, id: Id, user: Id, role: Role) returns (r: Result<PurchaseRequest>)
      requires Valid()
      modifies this`requests
      ensures Valid()
      ensures var g := TransitionGuard(old(requests), org, id, user, role, ORDERED, false);
        && (g.Failure? ==> r == Failure(g.error) && requests == old(requests))
        && (g.Success? ==>
              && r == Success(old(requests)[g.value].(status := ORDERED))
              && requests == old(requests)[g.value := r.value])
    {
      var g := TransitionGuard(requests, org, id, user, role, ORDERED, false);
      if g.Failure? {
        return Failure(g.error);
      }
      var pr := requests[g.value].(status := ORDERED);
      Replace(g.value, pr);
      r := Success(pr);
    }

    /** Writes a request back in place (the ORM's field assignment and commit). */
    method Replace(i: nat, pr: PurchaseRequest)
      requires Valid() && i < |requests|
      requires pr.id == requests[i].id && pr.org == requests[i].org && pr.requestNumber == requests[i].requestNumber
      requires Stamped(pr)
      modifies this`requests
      ensures Valid()
      ensures requests == old(requests)[i := pr]
    {
      ReplaceKeepsConsistent(requests, items, nextId, i, pr);
      requests := requests[i := pr];
    }

    /** The item replacement of `update`: the request's rows are deleted, then one row per new
        item line is added in order; no other request's items change. */
    method ReplaceItems(id: Id, specs: seq<PurchaseRequestItemCreate>)
      requires Valid() && id in RequestIds(requests) && AllValid(specs)
      modifies this`items
      ensures Valid()
      ensures items == DropItems(old(items), [id]) + ToItems(id, specs)
      ensures ItemsOf(items, id) == ToItems(id, specs)
      ensures forall other :: other != id ==> ItemsOf(items, other) == ItemsOf(old(items), other)
    {
      ReplaceItemsKeepsConsistent(requests, items, nextId, id, specs);
      ghost var before := items;
      items := DropItems(items, [id]);
      AddItems(id, specs);
      ItemsOfConcat(DropItems(before, [id]), ToItems(id, specs), id);
      ItemsOfDropItems(before, [id], id);
      ItemsOfToItems(id, specs, id);
      forall other | other != id
        ensures ItemsOf(items, other) == ItemsOf(before, other)
      {
        ItemsOfConcat(DropItems(before, [id]), ToItems(id, specs), other);
        ItemsOfDropItems(before, [id], other);
        ItemsOfToItems(id, specs, other);
      }
    }

    /** `db.delete` of one request, together with its item rows. */
    method Delete(id: Id)
      requires Valid()
      modifies this`requests, this`items
      ensures Valid()
      ensures requests == Drop(old(requests), [id])
      ensures items == DropItems(old(items), [id])
    {
      DeleteKeepsConsistent(requests, items, nextId, id);
      requests := Drop(requests, [id]);
      items := DropItems(items, [id]);
    }
  }
}

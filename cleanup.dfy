/** `scheduled_cleanup` (app/jobs/cleanup.py): delete DRAFT requests older than 30 days. */
module Cleanup {
  import opened Enums
  import opened Errors
  import opened PurchaseRequestModels
  import opened RequestNumbers
  import opened PurchaseRequests

  /** Drafts are stale when created strictly before 30 days ago; selection spans every organisation. */
  const StaleAfterDays: int := 30

  predicate Stale(r: PurchaseRequest, now: Time)
  {
    r.status == DRAFT && r.createdAt < now - StaleAfterDays * SecondsPerDay
  }

  /** The ids of the selected drafts, in table order. */
  function StaleIds(rs: seq<PurchaseRequest>, now: Time): (ids: seq<Id>)
    ensures forall id :: id in ids <==> exists r :: r in rs && Stale(r, now) && r.id == id
    ensures |ids| <= |rs|
  {
    if rs == [] then []
    else (if Stale(rs[0], now) then [rs[0].id] else []) + StaleIds(rs[1..], now)
  }

  /** What the request table should hold afterwards: every request that is not stale, in order. */
  function Retained(rs: seq<PurchaseRequest>, now: Time): (kept: seq<PurchaseRequest>)
    ensures forall r :: r in kept <==> r in rs && !Stale(r, now)
    ensures |kept| <= |rs|
  {
    if rs == [] then []
    else (if Stale(rs[0], now) then [] else [rs[0]]) + Retained(rs[1..], now)
  }

  /** Running the cleanup twice at the same moment deletes nothing the second time. */
  lemma {:induction false} RetainedIdempotent(rs: seq<PurchaseRequest>, now: Time)
    ensures Retained(Retained(rs, now), now) == Retained(rs, now)
  {
    if rs != [] {
      RetainedIdempotent(rs[1..], now);
      var t := Retained(rs[1..], now);
      if !Stale(rs[0], now) {
        assert Retained(rs, now) == [rs[0]] + t;
        assert ([rs[0]] + t)[1..] == t;
        assert Retained([rs[0]] + t, now) == [rs[0]] + Retained(t, now);
      } else {
        assert Retained(rs, now) == t;
      }
    }
  }

  /** A request survives a later cleanup too: the set of stale drafts only grows with time. */
  lemma {:induction false} LaterCleanupDeletesMore(rs: seq<PurchaseRequest>, earlier: Time, later: Time)
    requires earlier <= later
    ensures forall r :: r in Retained(rs, later) ==> r in Retained(rs, earlier)
  {
  }

  /** Deleting by the selected ids is keeping what is not stale, because ids are unique. */
  lemma {:induction false} DropSelectedIsRetained(rs: seq<PurchaseRequest>, ids: seq<Id>, now: Time)
    requires forall r :: r in rs ==> (r.id in ids <==> Stale(r, now))
    ensures Drop(rs, ids) == Retained(rs, now)
  {
    if rs != [] {
      assert rs[0] in rs;
      assert forall r :: r in rs[1..] ==> r in rs;
      DropSelectedIsRetained(rs[1..], ids, now);
    }
  }

  lemma StaleIdsSelectExactly(rs: seq<PurchaseRequest>, now: Time)
    requires UniqueIds(rs)
    ensures forall r :: r in rs ==> (r.id in StaleIds(rs, now) <==> Stale(r, now))
  {
    forall r | r in rs && r.id in StaleIds(rs, now)
      ensures Stale(r, now)
    {
      var s :| s in rs && Stale(s, now) && s.id == r.id;
      var i :| 0 <= i < |rs| && rs[i] == r;
      var j :| 0 <= j < |rs| && rs[j] == s;
      assert i == j;
    }
  }

  /** The corrected job: the `for draft in drafts: db.delete(draft)` loop, deleting each selected
      draft together with its item rows, then one commit. Every stale draft goes, every other
      request stays in order, and no item row is left without its request. Returns the count
      it logs. */
  method ScheduledCleanup(store: PurchaseRequestService, now: Time) returns (deleted: nat)
    requires store.Valid()
    modifies store
    ensures store.Valid()
    ensures store.requests == Retained(old(store.requests), now)
    ensures store.items == DropItems(old(store.items), StaleIds(old(store.requests), now))
    ensures store.nextId == old(store.nextId)
    ensures deleted == |StaleIds(old(store.requests), now)|
  {
    var drafts := StaleIds(store.requests, now);
    ghost var rs0 := store.requests;
    ghost var items0 := store.items;
    StaleIdsSelectExactly(rs0, now);
    DropNothing(rs0);
    DropItemsNothing(items0);
    for i := 0 to |drafts|
      invariant store.Valid()
      invariant store.requests == Drop(rs0, drafts[..i])
      invariant store.items == DropItems(items0, drafts[..i])
      invariant store.nextId == old(store.nextId)
    {
      var d := drafts[i];
      assert drafts[..i + 1] == drafts[..i] + [d];
      DropStep(rs0, drafts[..i], d);
      DropItemsStep(items0, drafts[..i], d);
      store.Delete(d);
    }
    assert drafts[..|drafts|] == drafts;
    DropSelectedIsRetained(rs0, drafts, now);
    deleted := |drafts|;
  }

  /** The job as written: the selected drafts are deleted without their item rows. Item rows
      keep a non-null reference to their request, so when any selected draft still has items
      the single commit is refused, the exception is logged and nothing is deleted. */
  function CleanupAsWritten(rs: seq<PurchaseRequest>, items: seq<PurchaseRequestItem>, now: Time)
    : (after: seq<PurchaseRequest>)
    ensures (exists x :: x in items && x.requestId in StaleIds(rs, now)) ==> after == rs
    ensures (forall x :: x in items ==> x.requestId !in StaleIds(rs, now)) ==> after == Retained(rs, now)
  {
    if exists x :: x in items && x.requestId in StaleIds(rs, now) then rs else Retained(rs, now)
  }

  /** A selected stale draft that still has item rows makes the commit fail, so as written
      nothing is deleted: here the draft survives the job, where the corrected job removes it. */
  lemma CleanupAsWrittenKeepsDraftWithItems()
    ensures var draft := PurchaseRequest(0, 7, RequestNumber(1), DRAFT, 3, None, None, None, None, None, None, 0);
            var item := PurchaseRequestItem(0, 5, 1, None, None);
            var now := 31 * SecondsPerDay;
            && Stale(draft, now)
            && CleanupAsWritten([draft], [item], now) == [draft]
            && Retained([draft], now) == []
  {
    var draft := PurchaseRequest(0, 7, RequestNumber(1), DRAFT, 3, None, None, None, None, None, None, 0);
    var item := PurchaseRequestItem(0, 5, 1, None, None);
    var now := 31 * SecondsPerDay;
    assert draft.id in StaleIds([draft], now);
    assert item in [item];
  }

  /** The count-based numbering of `_next_request_number` hands out a number still in use once
      the cleanup has deleted an older draft: PR-00001 (a stale DRAFT whose items were all
      removed by an update) and PR-00002 (SUBMITTED) become PR-00002 alone, whose count gives
      PR-00002 again, which the unique index then refuses. The corrected numbering gives
      PR-00003. */
  lemma CountBasedNumberCollidesAfterCleanup()
    ensures var a := PurchaseRequest(0, 7, RequestNumber(1), DRAFT, 3, None, None, None, None, None, None, 0);
            var b := PurchaseRequest(1, 7, RequestNumber(2), SUBMITTED, 3, None, None, None, None, None, None, 0);
            var kept := CleanupAsWritten([a, b], [], 31 * SecondsPerDay);
            && kept == [b]
            && CountBasedNumber(kept, 7) == b.requestNumber
            && NextRequestNumber(kept, 7) == RequestNumber(3)
  {
    var a := PurchaseRequest(0, 7, RequestNumber(1), DRAFT, 3, None, None, None, None, None, None, 0);
    var b := PurchaseRequest(1, 7, RequestNumber(2), SUBMITTED, 3, None, None, None, None, None, None, 0);
    KeptAfterCleanup(a, b, 31 * SecondsPerDay);
    assert CleanupAsWritten([a, b], [], 31 * SecondsPerDay) == Retained([a, b], 31 * SecondsPerDay);
    SingleRequestNumbers(b, 2);
  }

  lemma KeptAfterCleanup(a: PurchaseRequest, b: PurchaseRequest, now: Time)
    requires Stale(a, now) && !Stale(b, now)
    ensures Retained([a, b], now) == [b]
  {
    assert [a, b][1..] == [b];
    assert [b][1..] == [];
  }

  /** The numbers handed out after a single surviving request numbered n. */
  lemma SingleRequestNumbers(b: PurchaseRequest, n: nat)
    requires b.requestNumber == RequestNumber(n)
    ensures CountBasedNumber([b], b.org) == RequestNumber(|[b]| + 1)
    ensures NextRequestNumber([b], b.org) == RequestNumber(n + 1)
  {
    OneRequest(b, n);
  }
}

/** The request shapes of app/schemas/purchase_request.py. `Valid` is the field constraint that
    request validation enforces (a 422 before the service is reached). */
module PurchaseRequestSchemas {
  import opened Enums
  import opened Errors
  import opened PurchaseRequestModels

  /** An item line: a strictly positive quantity; price and supplier optional. */
  datatype PurchaseRequestItemCreate = PurchaseRequestItemCreate(
    product: Id, quantity: int, estimatedPrice: Option<Price>, supplier: Option<Id>)
  {
    predicate Valid() { quantity > 0 }
  }

  predicate AllValid(items: seq<PurchaseRequestItemCreate>)
  {
    forall i :: 0 <= i < |items| ==> items[i].Valid()
  }

  /** A new request needs at least one item. */
  datatype PurchaseRequestCreate = PurchaseRequestCreate(notes: Option<string>, items: seq<PurchaseRequestItemCreate>)
  {
    predicate Valid() { |items| >= 1 && AllValid(items) }
  }

  /** Both fields optional, None meaning "leave unchanged"; a given item list may be empty. */
  datatype PurchaseRequestUpdate = PurchaseRequestUpdate(notes: Option<string>, items: Option<seq<PurchaseRequestItemCreate>>)
  {
    predicate Valid() { items.Some? ==> AllValid(items.value) }
  }

  /** A rejection needs a non-empty reason. */
  datatype PurchaseRequestReject = PurchaseRequestReject(rejectionReason: string)
  {
    predicate Valid() { |rejectionReason| >= 1 }
  }
}

/** The purchase_requests and purchase_request_items rows of app/models/purchase_request.py. */
module PurchaseRequestModels {
  import opened Enums
  import opened Errors

  /** `Numeric(10, 2)`: a price kept as a value, never computed with. */
  datatype Price = Price(hundredths: int)

  /** One purchase_requests row. The approval and rejection columns are nullable and unset when a
      request is created; the status column defaults to DRAFT. */
  datatype PurchaseRequest = PurchaseRequest(
    id: Id,
    org: Id,
    requestNumber: string,
    status: RequestStatus,
    createdBy: Id,
    approvedBy: Option<Id>,
    approvedAt: Option<Time>,
    rejectedBy: Option<Id>,
    rejectedAt: Option<Time>,
    rejectionReason: Option<string>,
    notes: Option<string>,
    createdAt: Time)

  /** One purchase_request_items row: it belongs to exactly one request (non-null `request_id`)
      and has a non-null product and an integer quantity. */
  datatype PurchaseRequestItem = PurchaseRequestItem(
    requestId: Id,
    product: Id,
    quantity: int,
    estimatedPrice: Option<Price>,
    supplier: Option<Id>)

  function RequestTime(r: PurchaseRequest): int
  {
    r.createdAt
  }

  /** The unique index on (org_id, request_number). */
  ghost predicate UniqueNumbers(rs: seq<PurchaseRequest>)
  {
    forall i, j :: 0 <= i < j < |rs| && rs[i].org == rs[j].org ==> rs[i].requestNumber != rs[j].requestNumber
  }

  /** The primary key. */
  ghost predicate UniqueIds(rs: seq<PurchaseRequest>)
  {
    forall i, j :: 0 <= i < j < |rs| ==> rs[i].id != rs[j].id
  }
}

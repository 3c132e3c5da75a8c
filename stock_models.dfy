/** The stock_movements row of app/models/stock_movement.py. */
module StockModels {
  import opened Enums
  import opened Errors

  /** One ledger row. Every column is non-null except `reference` and `notes`; `quantity` is a
      plain integer with no sign constraint, which is what lets ADJUSTMENT rows be negative. */
  datatype Movement = Movement(
    id: Id,
    org: Id,
    product: Id,
    warehouse: Id,
    movementType: MovementType,
    quantity: int,
    reference: Option<string>,
    notes: Option<string>,
    createdBy: Id,
    createdAt: Time)

  /** The types whose stored quantity is added to a balance; OUT and TRANSFER_OUT subtract it. */
  predicate IsInbound(t: MovementType)
  {
    t == IN || t == TRANSFER_IN || t == ADJUSTMENT
  }

  /** The row's contribution to its balance, as the `case` expression of the balance query. */
  function Signed(m: Movement): int
  {
    if IsInbound(m.movementType) then m.quantity else -m.quantity
  }

  /** The ordering key of the ledger and of the weekly window. */
  function MovementTime(m: Movement): int
  {
    m.createdAt
  }
}

/** The request and response shapes of app/schemas/stock_movement.py. `Valid` is the field
    constraint that request validation enforces (a 422 before the service is reached). */
module StockSchemas {
  import opened Enums
  import opened Errors

  datatype StockInCreate = StockInCreate(
    product: Id, warehouse: Id, quantity: int, reference: Option<string>, notes: Option<string>)
  {
    predicate Valid() { quantity > 0 }
  }

  datatype StockOutCreate = StockOutCreate(
    product: Id, warehouse: Id, quantity: int, reference: Option<string>, notes: Option<string>)
  {
    predicate Valid() { quantity > 0 }
  }

  /** A transfer payload carries no reference: the service generates one. */
  datatype StockTransferCreate = StockTransferCreate(
    product: Id, fromWarehouse: Id, toWarehouse: Id, quantity: int, notes: Option<string>)
  {
    predicate Valid() { quantity > 0 }
  }

  /** Any integer: positive adds, negative removes. Zero passes validation and is refused by
      the service. */
  datatype StockAdjustmentCreate = StockAdjustmentCreate(
    product: Id, warehouse: Id, quantity: int, reference: Option<string>, notes: Option<string>)

  /** One row of the stock-levels read. */
  datatype StockLevel = StockLevel(product: Id, warehouse: Id, currentStock: int)
}

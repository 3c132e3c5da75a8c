/** `check_low_stock` (app/jobs/low_stock.py): after a movement, compare one (product, warehouse)
    balance with the product's minimum and, when it is below, notify the organisation's managers. */
module LowStock {
  import opened Enums
  import opened Errors
  import opened Catalog
  import opened StockModels
  import opened StockSchemas
  import opened StockLedger

  /** The arguments of `send_low_stock_alert`. */
  datatype LowStockAlert = LowStockAlert(
    recipients: seq<string>, productName: string, warehouseName: string, currentStock: int, minimumStock: int)

  /** The "low_stock" event published for the organisation. */
  datatype LowStockEvent = LowStockEvent(
    org: Id, eventType: string, product: Id, productName: string, warehouse: Id, warehouseName: string,
    currentStock: int, minimumStock: int)

  datatype LowStockOutcome =
    | NoLevels                                        // no movement for the pair: logged, nothing sent
    | StockOk(current: int, minimum: int)             // at or above the minimum: logged
    | Alerted(alert: LowStockAlert, event: LowStockEvent)
    | Raised(error: Error)                            // a lookup raised; the job ends there

  lemma FirstTwoLevels(levels: seq<StockLevel>)
    ensures |levels| >= 2 ==> levels[0] in levels && levels[1] in levels
  {
  }

  /** With both filters set, `get_stock_levels` is empty when the pair has no movement and
      otherwise a single row carrying the pair's balance. */
  lemma LevelsForOnePair(rows: seq<Movement>, org: Id, product: Id, warehouse: Id)
    ensures var levels := GetStockLevels(rows, org, Some(product), Some(warehouse));
      && (levels == [] <==> forall m :: m in rows ==> KeyOf(m) != Key(org, product, warehouse))
      && (levels != [] ==> levels == [StockLevel(product, warehouse, Balance(rows, Key(org, product, warehouse)))])
  {
    var levels := GetStockLevels(rows, org, Some(product), Some(warehouse));
    forall l | l in levels
      ensures l == StockLevel(product, warehouse, Balance(rows, Key(org, product, warehouse)))
    {
      var m :| m in rows && InLevels(m, org, Some(product), Some(warehouse)) && m.product == l.product && m.warehouse == l.warehouse;
    }
    FirstTwoLevels(levels);
    if |levels| >= 2 {
      assert false;
    }
    if levels == [] {
      forall m | m in rows
        ensures KeyOf(m) != Key(org, product, warehouse)
      {
        if KeyOf(m) == Key(org, product, warehouse) {
          assert false;
        }
      }
    } else {
      assert levels[0] in levels;
      assert levels == [levels[0]];
    }
  }

  /** One run of the job on the tables as they are. Product lookup happens only when the pair
      has movements; the recipients and the warehouse are looked up only when stock is low. */
  function CheckLowStock(rows: seq<Movement>, products: seq<Product>, warehouses: seq<Warehouse>, users: seq<User>,
                         org: Id, product: Id, warehouse: Id): (o: LowStockOutcome)
    ensures o.NoLevels? <==> forall m :: m in rows ==> KeyOf(m) != Key(org, product, warehouse)
    ensures o.StockOk? ==>
      && o.current == Balance(rows, Key(org, product, warehouse))
      && FindProduct(products, org, product).Success?
      && o.minimum == FindProduct(products, org, product).value.minStockLevel
      && o.current >= o.minimum
    ensures o.Alerted? ==>
      FindProduct(products, org, product).Success? && FindWarehouse(warehouses, org, warehouse).Success?
    ensures o.Alerted? && FindProduct(products, org, product).Success? && FindWarehouse(warehouses, org, warehouse).Success? ==>
      var p := FindProduct(products, org, product).value;
      && o.alert == LowStockAlert(ManagerEmails(users, org), p.name, FindWarehouse(warehouses, org, warehouse).value.name,
                                  Balance(rows, Key(org, product, warehouse)), p.minStockLevel)
      && o.alert.currentStock < o.alert.minimumStock
      && o.event == LowStockEvent(org, "low_stock", product, o.alert.productName, warehouse, o.alert.warehouseName,
                                  o.alert.currentStock, o.alert.minimumStock)
    ensures o.Raised? ==>
      || (o.error == NotFound("Product not found") && FindProduct(products, org, product).Failure?)
      || (o.error == NotFound("Warehouse not found")
          && FindProduct(products, org, product).Success?
          && FindWarehouse(warehouses, org, warehouse).Failure?
          && Balance(rows, Key(org, product, warehouse)) < FindProduct(products, org, product).value.minStockLevel)
  {
    var levels := GetStockLevels(rows, org, Some(product), Some(warehouse));
    LevelsForOnePair(rows, org, product, warehouse);
    if levels == [] then NoLevels
    else
      var current := levels[0].currentStock;
      match FindProduct(products, org, product)
      case Failure(e) => Raised(e)
      case Success(p) =>
        if current < p.minStockLevel then
          var recipients := ManagerEmails(users, org);
          match FindWarehouse(warehouses, org, warehouse)
          case Failure(e) => Raised(e)
          case Success(w) =>
            var alert := LowStockAlert(recipients, p.name, w.name, current, p.minStockLevel);
            Alerted(alert, LowStockEvent(org, "low_stock", product, p.name, warehouse, w.name, current, p.minStockLevel))
        else
          StockOk(current, p.minStockLevel)
  }

  /** An alert is sent exactly when the pair has movements, the product and warehouse exist, and
      the pair's balance is strictly below the product's minimum. */
  lemma AlertIffBelowMinimum(rows: seq<Movement>, products: seq<Product>, warehouses: seq<Warehouse>, users: seq<User>,
                             org: Id, product: Id, warehouse: Id)
    ensures CheckLowStock(rows, products, warehouses, users, org, product, warehouse).Alerted? <==>
      && (exists m :: m in rows && KeyOf(m) == Key(org, product, warehouse))
      && FindProduct(products, org, product).Success?
      && FindWarehouse(warehouses, org, warehouse).Success?
      && Balance(rows, Key(org, product, warehouse)) < FindProduct(products, org, product).value.minStockLevel
  {
    LevelsForOnePair(rows, org, product, warehouse);
  }

  /** For a pair with movements and a known product, the check finds the stock OK exactly when
      the balance is at or above the product's minimum. */
  lemma StockOkIffAtMinimum(rows: seq<Movement>, products: seq<Product>, warehouses: seq<Warehouse>, users: seq<User>,
                            org: Id, product: Id, warehouse: Id, m: Movement)
    requires m in rows && KeyOf(m) == Key(org, product, warehouse)
    requires FindProduct(products, org, product).Success?
    ensures CheckLowStock(rows, products, warehouses, users, org, product, warehouse).StockOk?
        <==> Balance(rows, Key(org, product, warehouse)) >= FindProduct(products, org, product).value.minStockLevel
  {
    LevelsForOnePair(rows, org, product, warehouse);
  }

  /** A STAFF user is never among the alert's recipients. */
  lemma StaffNeverAlerted(rows: seq<Movement>, products: seq<Product>, warehouses: seq<Warehouse>, users: seq<User>,
                          org: Id, product: Id, warehouse: Id, k: nat)
    requires UniqueEmails(users)
    requires k < |users| && users[k].org == org && users[k].role == STAFF
    requires CheckLowStock(rows, products, warehouses, users, org, product, warehouse).Alerted?
    ensures users[k].email !in CheckLowStock(rows, products, warehouses, users, org, product, warehouse).alert.recipients
  {
    StaffNeverRecipient(users, org, k);
  }
}

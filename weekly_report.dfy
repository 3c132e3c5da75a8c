/** `weekly_report` (app/jobs/weekly_report.py): one digest per organisation with the week's
    movement totals, the low-stock levels and the pending purchase requests. */
module WeeklyReport {
  import opened Enums
  import opened Errors
  import opened Catalog
  import opened StockModels
  import opened StockSchemas
  import opened StockLedger
  import opened PurchaseRequestModels
  import opened LowStock

  const WindowDays: int := 7

  /** A row counts toward the week's totals when it is the organisation's and created at or
      after the start of the window. */
  predicate InWindow(m: Movement, org: Id, since: Time)
  {
    m.org == org && m.createdAt >= since
  }

  /** The raw sum of stored quantities of one type in the window (no sign applied). */
  function WindowSum(rows: seq<Movement>, org: Id, since: Time, t: MovementType): int
  {
    if rows == [] then 0
    else (if InWindow(rows[0], org, since) && rows[0].movementType == t then rows[0].quantity else 0)
         + WindowSum(rows[1..], org, since, t)
  }

  /** The net stock change of the organisation over the window, every row signed as in a balance. */
  function WindowNet(rows: seq<Movement>, org: Id, since: Time): int
  {
    if rows == [] then 0
    else (if InWindow(rows[0], org, since) then Signed(rows[0]) else 0) + WindowNet(rows[1..], org, since)
  }

  predicate TypePresent(rows: seq<Movement>, org: Id, since: Time, t: MovementType)
  {
    exists m :: m in rows && InWindow(m, org, since) && m.movementType == t
  }

  const AllTypes: set<MovementType> := {IN, OUT, TRANSFER_IN, TRANSFER_OUT, ADJUSTMENT}

  /** `totals`: one entry per type that has a row in the window (the GROUP BY), holding the raw
      sum of that type's quantities. */
  function WeeklyTotals(rows: seq<Movement>, org: Id, since: Time): (totals: map<MovementType, int>)
    ensures forall t :: t in totals <==> TypePresent(rows, org, since, t)
    ensures forall t :: t in totals ==> totals[t] == WindowSum(rows, org, since, t)
  {
    map t | t in AllTypes && TypePresent(rows, org, since, t) :: WindowSum(rows, org, since, t)
  }

  /** The totals account for the week's whole net change: inbound sums minus outbound sums. */
  lemma {:induction false} TotalsGiveNetChange(rows: seq<Movement>, org: Id, since: Time)
    ensures WindowNet(rows, org, since) ==
      WindowSum(rows, org, since, IN) + WindowSum(rows, org, since, TRANSFER_IN) + WindowSum(rows, org, since, ADJUSTMENT)
      - WindowSum(rows, org, since, OUT) - WindowSum(rows, org, since, TRANSFER_OUT)
  {
    if rows != [] {
      TotalsGiveNetChange(rows[1..], org, since);
    }
  }

  /** A type without rows in the window sums to zero, so an absent key and a zero total agree. */
  lemma {:induction false} AbsentTypeSumsToZero(rows: seq<Movement>, org: Id, since: Time, t: MovementType)
    requires !TypePresent(rows, org, since, t)
    ensures WindowSum(rows, org, since, t) == 0
  {
    if rows != [] {
      assert rows[0] in rows;
      assert forall m :: m in rows[1..] ==> m in rows;
      AbsentTypeSumsToZero(rows[1..], org, since, t);
    }
  }

  /** `product_map[id]`: the product row with that id (the products query has no organisation
      filter; with duplicate ids the last row wins). */
  function ProductById(products: seq<Product>, id: Id): (r: Option<Product>)
    ensures r.Some? ==> r.value in products && r.value.id == id
    ensures r.None? <==> forall p :: p in products ==> p.id != id
  {
    if products == [] then None
    else if products[|products| - 1].id == id then Some(products[|products| - 1])
    else
      assert forall p :: p in products[..|products| - 1] ==> p in products;
      assert products == products[..|products| - 1] + [products[|products| - 1]];
      ProductById(products[..|products| - 1], id)
  }

  /** The levels below their product's minimum, in order; `None` when some level's product has
      no row, which raises `KeyError` in the comprehension. */
  function LowStockLevels(levels: seq<StockLevel>, products: seq<Product>): (r: Option<seq<StockLevel>>)
    ensures r.None? <==> exists l :: l in levels && ProductById(products, l.product).None?
    ensures r.Some? ==> forall l :: l in r.value <==>
      l in levels && l.currentStock < ProductById(products, l.product).value.minStockLevel
  {
    if levels == [] then Some([])
    else
      var l := levels[0];
      match ProductById(products, l.product)
      case None => None
      case Some(p) =>
        match LowStockLevels(levels[1..], products)
        case None => None
        case Some(rest) => Some(if l.currentStock < p.minStockLevel then [l] + rest else rest)
  }

  /** The organisation's SUBMITTED and APPROVED requests, in table order. */
  function PendingRequests(rs: seq<PurchaseRequest>, org: Id): (pending: seq<PurchaseRequest>)
    ensures forall r :: r in pending <==> r in rs && r.org == org && (r.status == SUBMITTED || r.status == APPROVED)
  {
    if rs == [] then []
    else
      (if rs[0].org == org && (rs[0].status == SUBMITTED || rs[0].status == APPROVED) then [rs[0]] else [])
      + PendingRequests(rs[1..], org)
  }

  /** The arguments of `send_weekly_report`. */
  datatype Digest = Digest(
    recipients: seq<string>, orgName: string, totals: map<MovementType, int>,
    lowStock: seq<StockLevel>, pending: seq<PurchaseRequest>)

  /** What happens for one organisation: its digest is sent, or the failure is logged. */
  datatype OrgOutcome = Sent(digest: Digest) | Failed

  /** The body of the per-organisation `try`. */
  function ReportFor(org: Organization, users: seq<User>, rows: seq<Movement>, products: seq<Product>,
                     rs: seq<PurchaseRequest>, now: Time): (o: OrgOutcome)
    ensures var levels := GetStockLevels(rows, org.id, None, None);
      o.Failed? <==> exists l :: l in levels && ProductById(products, l.product).None?
    ensures o.Sent? ==>
      var levels := GetStockLevels(rows, org.id, None, None);
      && o.digest.recipients == ManagerEmails(users, org.id)
      && o.digest.orgName == org.name
      && o.digest.totals == WeeklyTotals(rows, org.id, now - WindowDays * SecondsPerDay)
      && (forall l :: l in o.digest.lowStock <==>
            l in levels && l.currentStock < ProductById(products, l.product).value.minStockLevel)
      && (forall r :: r in o.digest.pending <==>
            r in rs && r.org == org.id && (r.status == SUBMITTED || r.status == APPROVED))
  {
    var recipients := ManagerEmails(users, org.id);
    var totals := WeeklyTotals(rows, org.id, now - WindowDays * SecondsPerDay);
    var levels := GetStockLevels(rows, org.id, None, None);
    match LowStockLevels(levels, products)
    case None => Failed
    case Some(low) => Sent(Digest(recipients, org.name, totals, low, PendingRequests(rs, org.id)))
  }

  /** The job: one outcome per organisation, in order. A failing organisation does not stop the
      loop, so every organisation whose report can be built receives exactly one digest. */
  method WeeklyReportJob(orgs: seq<Organization>, users: seq<User>, rows: seq<Movement>, products: seq<Product>,
                         rs: seq<PurchaseRequest>, now: Time) returns (outcomes: seq<OrgOutcome>)
    ensures |outcomes| == |orgs|
    ensures forall i :: 0 <= i < |orgs| ==> outcomes[i] == ReportFor(orgs[i], users, rows, products, rs, now)
  {
    outcomes := [];
    for i := 0 to |orgs|
      invariant |outcomes| == i
      invariant forall j :: 0 <= j < i ==> outcomes[j] == ReportFor(orgs[j], users, rows, products, rs, now)
    {
      var o := ReportFor(orgs[i], users, rows, products, rs, now);
      outcomes := outcomes + [o];
    }
  }

  predicate UniqueProductIds(products: seq<Product>)
  {
    forall i, j :: 0 <= i < j < |products| ==> products[i].id != products[j].id
  }

  /** With unique ids, the digest's lookup and the alert's lookup find the same product when
      it belongs to the organisation. */
  lemma SameProduct(products: seq<Product>, org: Id, id: Id)
    requires UniqueProductIds(products)
    requires ProductById(products, id).Some? && ProductById(products, id).value.org == org
    ensures FindProduct(products, org, id) == Success(ProductById(products, id).value)
  {
    var p := ProductById(products, id).value;
    var found := FindProduct(products, org, id);
    assert found.Success? by {
      assert p in products;
    }
    var i :| 0 <= i < |products| && products[i] == p;
    var j :| 0 <= j < |products| && products[j] == found.value;
    assert i == j;
  }

  /** The digest's low-stock list and the per-movement alert agree: for a level of the
      organisation whose product belongs to it, `check_low_stock` finds the stock OK exactly
      when the level is not in the digest's list. */
  lemma DigestAgreesWithAlert(org: Organization, users: seq<User>, rows: seq<Movement>, products: seq<Product>,
                              warehouses: seq<Warehouse>, rs: seq<PurchaseRequest>, now: Time, l: StockLevel)
    requires UniqueProductIds(products)
    requires ReportFor(org, users, rows, products, rs, now).Sent?
    requires l in GetStockLevels(rows, org.id, None, None)
    requires ProductById(products, l.product).value.org == org.id
    ensures CheckLowStock(rows, products, warehouses, users, org.id, l.product, l.warehouse).StockOk?
        <==> l !in ReportFor(org, users, rows, products, rs, now).digest.lowStock
  {
    var p := ProductById(products, l.product).value;
    var key := Key(org.id, l.product, l.warehouse);
    assert l in ReportFor(org, users, rows, products, rs, now).digest.lowStock <==> l.currentStock < p.minStockLevel;
    assert l.currentStock == Balance(rows, key);
    SameProduct(products, org.id, l.product);
    var m :| m in rows && InLevels(m, org.id, None, None) && m.product == l.product && m.warehouse == l.warehouse;
    assert KeyOf(m) == key;
    StockOkIffAtMinimum(rows, products, warehouses, users, org.id, l.product, l.warehouse, m);
  }

}

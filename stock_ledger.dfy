/** The stock ledger and balance engine of app/services/stock_movement.py (StockService). The
    ledger is an append-only table of movements; a balance is derived from it on every read. */
module StockLedger {
  import opened Enums
  import opened Errors
  import opened StockModels
  import opened StockSchemas
  import opened Queries
  import opened AuditLog
  import Digits

  /** The triple a balance is kept for. */
  datatype Key = Key(org: Id, product: Id, warehouse: Id)

  function KeyOf(m: Movement): Key
  {
    Key(m.org, m.product, m.warehouse)
  }

  // ---------------------------------------------------------------------------------------------
  // Balances

  /** `_current_stock`: the sum of the signed contributions of the rows of one triple; 0 when the
      triple has no rows (the `coalesce(sum, 0)`). */
  function Balance(rows: seq<Movement>, k: Key): int
  {
    if rows == [] then 0
    else (if KeyOf(rows[0]) == k then Signed(rows[0]) else 0) + Balance(rows[1..], k)
  }

  /** A triple that no row belongs to has balance 0, however many other rows there are. */
  lemma {:induction false} BalanceWithoutRows(rows: seq<Movement>, k: Key)
    requires forall m :: m in rows ==> KeyOf(m) != k
    ensures Balance(rows, k) == 0
  {
    if rows != [] {
      assert forall m :: m in rows[1..] ==> m in rows;
      BalanceWithoutRows(rows[1..], k);
    }
  }

  /** The balance of a concatenation is the sum of the balances of the parts. */
  lemma {:induction false} BalanceConcat(a: seq<Movement>, b: seq<Movement>, k: Key)
    ensures Balance(a + b, k) == Balance(a, k) + Balance(b, k)
  {
    if a != [] {
      assert (a + b)[1..] == a[1..] + b;
      BalanceConcat(a[1..], b, k);
    } else {
      assert a + b == b;
    }
  }

  /** Appending a row changes the balance of its own triple by its signed quantity and leaves the
      balance of every other triple (other products, warehouses and orgs) as it was. */
  lemma BalanceAppend(rows: seq<Movement>, m: Movement, k: Key)
    ensures Balance(rows + [m], k) == Balance(rows, k) + (if KeyOf(m) == k then Signed(m) else 0)
  {
    BalanceConcat(rows, [m], k);
  }

  /** The raw (unsigned) sum of the stored quantities of one type for one triple. */
  function TypeTotal(rows: seq<Movement>, k: Key, t: MovementType): int
  {
    if rows == [] then 0
    else (if KeyOf(rows[0]) == k && rows[0].movementType == t then rows[0].quantity else 0)
         + TypeTotal(rows[1..], k, t)
  }

  /** The sign convention spelled out: IN, TRANSFER_IN and ADJUSTMENT add their stored quantity,
      OUT and TRANSFER_OUT subtract it. */
  lemma {:induction false} BalanceBySign(rows: seq<Movement>, k: Key)
    ensures Balance(rows, k) ==
      TypeTotal(rows, k, IN) + TypeTotal(rows, k, TRANSFER_IN) + TypeTotal(rows, k, ADJUSTMENT)
      - TypeTotal(rows, k, OUT) - TypeTotal(rows, k, TRANSFER_OUT)
  {
    if rows != [] {
      BalanceBySign(rows[1..], k);
    }
  }

  /** Every balance is non-negative. */
  ghost predicate NonNegative(rows: seq<Movement>)
  {
    forall k :: Balance(rows, k) >= 0
  }

  /** A row that does not take its own triple below zero keeps every balance non-negative. */
  lemma AppendKeepsNonNegative(rows: seq<Movement>, m: Movement)
    requires NonNegative(rows)
    requires Balance(rows, KeyOf(m)) + Signed(m) >= 0
    ensures NonNegative(rows + [m])
  {
    forall k ensures Balance(rows + [m], k) >= 0 {
      BalanceAppend(rows, m, k);
    }
  }

  /** The signed total of one product of one org, over all of its warehouses. */
  function ProductTotal(rows: seq<Movement>, org: Id, product: Id): int
  {
    if rows == [] then 0
    else (if rows[0].org == org && rows[0].product == product then Signed(rows[0]) else 0)
         + ProductTotal(rows[1..], org, product)
  }

  lemma {:induction false} ProductTotalConcat(a: seq<Movement>, b: seq<Movement>, org: Id, product: Id)
    ensures ProductTotal(a + b, org, product) == ProductTotal(a, org, product) + ProductTotal(b, org, product)
  {
    if a != [] {
      assert (a + b)[1..] == a[1..] + b;
      ProductTotalConcat(a[1..], b, org, product);
    } else {
      assert a + b == b;
    }
  }

  /** Two transfer legs of equal quantity leave the product's total across warehouses unchanged. */
  lemma TransferConservesProductTotal(rows: seq<Movement>, out: Movement, into: Movement)
    requires out.movementType == TRANSFER_OUT && into.movementType == TRANSFER_IN
    requires out.org == into.org && out.product == into.product && out.quantity == into.quantity
    ensures forall org, product :: ProductTotal(rows + [out, into], org, product) == ProductTotal(rows, org, product)
  {
    forall org, product ensures ProductTotal(rows + [out, into], org, product) == ProductTotal(rows, org, product) {
      ProductTotalConcat(rows, [out, into], org, product);
      var legs := [out, into];
      assert legs[1..] == [into] && [into][1..] == [];
      var hit := out.org == org && out.product == product;
      assert ProductTotal([into], org, product) == if hit then into.quantity else 0;
      assert ProductTotal(legs, org, product) == (if hit then -out.quantity else 0) + ProductTotal([into], org, product);
    }
  }

  // ---------------------------------------------------------------------------------------------
  // Transfer references and audit snapshots

  /** `f"TRANSFER-{uuid.uuid4().hex[:8].upper()}"`, given the 32 lower-case hex digits of the
      random UUID. */
  function TransferReference(uuidHex: string): (ref: string)
    requires |uuidHex| == 32 && forall i :: 0 <= i < 32 ==> Digits.IsLowerHex(uuidHex[i])
    ensures |ref| == 17 && ref[..9] == "TRANSFER-"
    ensures forall i :: 9 <= i < 17 ==> Digits.IsUpperHex(ref[i])
  {
    "TRANSFER-" + Digits.UpperHex(uuidHex[..8])
  }

  /** The eight characters after "TRANSFER-" are the UUID's first eight hex digits, upper-cased. */
  lemma TransferReferenceSpellsUuid(uuidHex: string)
    requires |uuidHex| == 32 && forall i :: 0 <= i < 32 ==> Digits.IsLowerHex(uuidHex[i])
    ensures var ref := TransferReference(uuidHex);
      forall i :: 9 <= i < 17 ==>
        ref[i] == if 'a' <= uuidHex[i - 9] <= 'f' then (uuidHex[i - 9] as int - 32) as char else uuidHex[i - 9]
  {
    var ref := TransferReference(uuidHex);
    var up := Digits.UpperHex(uuidHex[..8]);
    forall i | 9 <= i < 17
      ensures ref[i] == if 'a' <= uuidHex[i - 9] <= 'f' then (uuidHex[i - 9] as int - 32) as char else uuidHex[i - 9]
    {
      assert ref[i] == up[i - 9] && uuidHex[..8][i - 9] == uuidHex[i - 9];
    }
  }

  /** `_movement_snapshot`. */
  function MovementSnapshot(m: Movement): Snapshot
  {
    map[
      "product_id" := Str(IdText(m.product)),
      "warehouse_id" := Str(IdText(m.warehouse)),
      "type" := Str(MovementTypeName(m.movementType)),
      "quantity" := Int(m.quantity),
      "reference" := OptionalText(m.reference),
      "notes" := OptionalText(m.notes)]
  }

  /** The audit record of a one-row write. */
  function MovementAudit(action: string, m: Movement): AuditLogCreate
  {
    AuditLogCreate(m.createdBy, action, "StockMovement", IdText(m.id), None, MovementSnapshot(m), None, None)
  }

  /** The single audit record of a transfer, naming both legs and the shared reference. */
  function TransferAudit(p: StockTransferCreate, out: Movement, into: Movement, ref: string): AuditLogCreate
  {
    AuditLogCreate(out.createdBy, "STOCK_TRANSFER", "StockMovement", IdText(out.id), None,
      map[
        "transfer_ref" := Str(ref),
        "product_id" := Str(IdText(p.product)),
        "from_warehouse_id" := Str(IdText(p.fromWarehouse)),
        "to_warehouse_id" := Str(IdText(p.toWarehouse)),
        "quantity" := Int(p.quantity),
        "notes" := OptionalText(p.notes),
        "in_movement_id" := Str(IdText(into.id))],
      None, None)
  }

  function AppendedEntry(entries: seq<AuditEntry>, org: Id, p: AuditLogCreate, now: Time): AuditEntry
  {
    AuditEntry(|entries|, org, p.actor, p.action, p.entity, p.entityId, p.before, p.after, now, p.ipAddress, p.userAgent)
  }

  // ---------------------------------------------------------------------------------------------
  // Reads

  /** The optional filters of `get_ledger`. Identifiers, types and dates are always truthy. */
  datatype LedgerFilter = LedgerFilter(
    product: Option<Id>,
    warehouse: Option<Id>,
    movementType: Option<MovementType>,
    startDate: Option<Time>,
    endDate: Option<Time>)

  predicate InLedger(m: Movement, org: Id, f: LedgerFilter)
  {
    && m.org == org
    && (f.product.Some? ==> m.product == f.product.value)
    && (f.warehouse.Some? ==> m.warehouse == f.warehouse.value)
    && (f.movementType.Some? ==> m.movementType == f.movementType.value)
    && (f.startDate.Some? ==> m.createdAt >= f.startDate.value)
    && (f.endDate.Some? ==> m.createdAt <= f.endDate.value)
  }

  function LedgerRows(rows: seq<Movement>, org: Id, f: LedgerFilter): (r: seq<Movement>)
    ensures forall m :: m in r <==> m in rows && InLedger(m, org, f)
  {
    if rows == [] then []
    else
      var rest := LedgerRows(rows[1..], org, f);
      assert rows == [rows[0]] + rows[1..];
      if InLedger(rows[0], org, f) then [rows[0]] + rest else rest
  }

  /** `get_ledger`: one page of the org's rows that pass every supplied filter (date bounds
      inclusive), newest first. */
  function GetLedger(rows: seq<Movement>, org: Id, f: LedgerFilter, skip: nat, limit: nat): (r: seq<Movement>)
    ensures forall m :: m in r ==> m in rows && InLedger(m, org, f)
    ensures NewestFirst(r, MovementTime)
    ensures |r| <= limit
    ensures skip == 0 && |LedgerRows(rows, org, f)| <= limit ==>
      forall m :: m in rows && InLedger(m, org, f) ==> m in r
    ensures var sel := LedgerRows(rows, org, f);
      |r| == (if skip >= |sel| then 0 else Min(limit, |sel| - skip))
      && exists t :: NewestFirst(t, MovementTime) && multiset(t) == multiset(sel) && r == Page(t, skip, limit)
  {
    NewestPage(LedgerRows(rows, org, f), MovementTime, skip, limit)
  }

  /** The row passes the WHERE clause of `get_stock_levels`. */
  predicate InLevels(m: Movement, org: Id, product: Option<Id>, warehouse: Option<Id>)
  {
    m.org == org && (product.Some? ==> m.product == product.value) && (warehouse.Some? ==> m.warehouse == warehouse.value)
  }

  /** The (product, warehouse) groups of the selected rows, each once. */
  function Groups(rows: seq<Movement>, org: Id, product: Option<Id>, warehouse: Option<Id>): (gs: seq<(Id, Id)>)
    ensures forall i, j :: 0 <= i < j < |gs| ==> gs[i] != gs[j]
    ensures forall g :: g in gs <==>
      exists m :: m in rows && InLevels(m, org, product, warehouse) && g == (m.product, m.warehouse)
  {
    if rows == [] then []
    else
      var rest := Groups(rows[1..], org, product, warehouse);
      var m := rows[0];
      assert rows == [m] + rows[1..];
      if InLevels(m, org, product, warehouse) && (m.product, m.warehouse) !in rest then
        [(m.product, m.warehouse)] + rest
      else
        rest
  }

  /** One stock level per group, each carrying its triple's balance. */
  function LevelsOf(rows: seq<Movement>, org: Id, gs: seq<(Id, Id)>): seq<StockLevel>
  {
    seq(|gs|, i requires 0 <= i < |gs| => StockLevel(gs[i].0, gs[i].1, Balance(rows, Key(org, gs[i].0, gs[i].1))))
  }

  /** The levels built from the groups cover exactly the selected rows' (product, warehouse) pairs. */
  lemma LevelsCoverGroups(rows: seq<Movement>, org: Id, product: Option<Id>, warehouse: Option<Id>)
    ensures var levels := LevelsOf(rows, org, Groups(rows, org, product, warehouse));
      (forall m :: m in rows && InLevels(m, org, product, warehouse) ==>
        exists l :: l in levels && l.product == m.product && l.warehouse == m.warehouse)
      && (forall l :: l in levels ==>
        exists m :: m in rows && InLevels(m, org, product, warehouse) && m.product == l.product && m.warehouse == l.warehouse)
  {
    var gs := Groups(rows, org, product, warehouse);
    var levels := LevelsOf(rows, org, gs);
    forall m | m in rows && InLevels(m, org, product, warehouse)
      ensures exists l :: l in levels && l.product == m.product && l.warehouse == m.warehouse
    {
      assert (m.product, m.warehouse) in gs;
      var i :| 0 <= i < |gs| && gs[i] == (m.product, m.warehouse);
      assert levels[i] in levels;
    }
    forall l | l in levels
      ensures exists m :: m in rows && InLevels(m, org, product, warehouse) && m.product == l.product && m.warehouse == l.warehouse
    {
      var i :| 0 <= i < |levels| && levels[i] == l;
      assert gs[i] in gs;
    }
  }

  /** `get_stock_levels`: one row per (product, warehouse) group of the org's movements that pass
      the filters, with that triple's balance. */
  function GetStockLevels(rows: seq<Movement>, org: Id, product: Option<Id>, warehouse: Option<Id>): (levels: seq<StockLevel>)
    ensures forall l :: l in levels ==>
      l.currentStock == Balance(rows, Key(org, l.product, l.warehouse))
      && exists m :: m in rows && InLevels(m, org, product, warehouse) && m.product == l.product && m.warehouse == l.warehouse
    ensures forall m :: m in rows && InLevels(m, org, product, warehouse) ==>
      exists l :: l in levels && l.product == m.product && l.warehouse == m.warehouse
    ensures forall i, j :: 0 <= i < j < |levels| ==>
      (levels[i].product, levels[i].warehouse) != (levels[j].product, levels[j].warehouse)
  {
    LevelsCoverGroups(rows, org, product, warehouse);
    LevelsOf(rows, org, Groups(rows, org, product, warehouse))
  }

  // ---------------------------------------------------------------------------------------------
  // The service

  class StockService {
    var movements: seq<Movement>
    const audit: AuditService

    /** Row ids are positions in the append-only table, and no balance is below zero. */
    ghost predicate Valid()
      reads this, audit
    {
      && audit.Valid()
      && (forall i :: 0 <= i < |movements| ==> movements[i].id == i)
      && NonNegative(movements)
    }

    constructor (audit: AuditService)
      requires audit.Valid()
      ensures Valid() && movements == [] && this.audit == audit
    {
      movements := [];
      this.audit := audit;
    }

    /** `_current_stock` on the table as it is now. */
    function CurrentStock(org: Id, product: Id, warehouse: Id): int
      reads this
    {
      Balance(movements, Key(org, product, warehouse))
    }

    /** `stock_in`: no balance check; exactly one IN row with the requested quantity, so the
        triple's balance rises by exactly that quantity, and one STOCK_IN audit entry. */
    method StockIn(org: Id, user: Id, p: StockInCreate, now: Time) returns (m: Movement)
      requires Valid() && p.Valid()
      modifies this`movements, audit
      ensures Valid()
      ensures m == Movement(old(|movements|), org, p.product, p.warehouse, IN, p.quantity, p.reference, p.notes, user, now)
      ensures movements == old(movements) + [m]
      ensures CurrentStock(org, p.product, p.warehouse) == old(CurrentStock(org, p.product, p.warehouse)) + p.quantity
      ensures audit.entries == old(audit.entries) + [AppendedEntry(old(audit.entries), org, MovementAudit("STOCK_IN", m), now)]
    {
      m := Movement(|movements|, org, p.product, p.warehouse, IN, p.quantity, p.reference, p.notes, user, now);
      AppendKeepsNonNegative(movements, m);
      BalanceAppend(movements, m, KeyOf(m));
      movements := movements + [m];
      var _ := audit.Log(org, MovementAudit("STOCK_IN", m), now);
    }

    /** `stock_out`: 422 "Insufficient stock" exactly when the balance is below the quantity, and
        then nothing is written; otherwise one OUT row, so the balance drops by the quantity. */
    method StockOut(org: Id, user: Id, p: StockOutCreate, now: Time) returns (r: Result<Movement>)
      requires Valid() && p.Valid()
      modifies this`movements, audit
      ensures Valid()
      ensures r.Failure? <==> old(CurrentStock(org, p.product, p.warehouse)) < p.quantity
      ensures r.Failure? ==>
        && r.error == Unprocessable("Insufficient stock. Available: " + IntText(old(CurrentStock(org, p.product, p.warehouse)))
                                    + ", requested: " + IntText(p.quantity) + ".")
        && movements == old(movements) && audit.entries == old(audit.entries)
      ensures r.Success? ==>
        && r.value == Movement(old(|movements|), org, p.product, p.warehouse, OUT, p.quantity, p.reference, p.notes, user, now)
        && movements == old(movements) + [r.value]
        && CurrentStock(org, p.product, p.warehouse) == old(CurrentStock(org, p.product, p.warehouse)) - p.quantity
        && audit.entries == old(audit.entries) + [AppendedEntry(old(audit.entries), org, MovementAudit("STOCK_OUT", r.value), now)]
    {
      var current := Balance(movements, Key(org, p.product, p.warehouse));
      if current < p.quantity {
        return Failure(Unprocessable("Insufficient stock. Available: " + IntText(current) + ", requested: " + IntText(p.quantity) + "."));
      }
      var m := Movement(|movements|, org, p.product, p.warehouse, OUT, p.quantity, p.reference, p.notes, user, now);
      AppendKeepsNonNegative(movements, m);
      BalanceAppend(movements, m, KeyOf(m));
      movements := movements + [m];
      var _ := audit.Log(org, MovementAudit("STOCK_OUT", m), now);
      r := Success(m);
    }

    /** `transfer`: 422 when the warehouses are equal (before any balance check), else 422 when
        the source balance is below the quantity; otherwise a TRANSFER_OUT row at the source and
        then a TRANSFER_IN row at the destination sharing product, quantity, notes and one
        reference, and a single STOCK_TRANSFER audit entry. */
    method Transfer(org: Id, user: Id, p: StockTransferCreate, uuidHex: string, now: Time)
      returns (r: Result<(Movement, Movement)>)
      requires Valid() && p.Valid()
      requires |uuidHex| == 32 && forall i :: 0 <= i < 32 ==> Digits.IsLowerHex(uuidHex[i])
      modifies this`movements, audit
      ensures Valid()
      ensures r.Failure? <==>
        p.fromWarehouse == p.toWarehouse || old(CurrentStock(org, p.product, p.fromWarehouse)) < p.quantity
      ensures p.fromWarehouse == p.toWarehouse ==>
        r == Failure(Unprocessable("Source and destination warehouses must be different."))
      ensures p.fromWarehouse != p.toWarehouse && old(CurrentStock(org, p.product, p.fromWarehouse)) < p.quantity ==>
        r == Failure(Unprocessable("Insufficient stock. Available: " + IntText(old(CurrentStock(org, p.product, p.fromWarehouse)))
                                   + ", requested: " + IntText(p.quantity) + "."))
      ensures r.Failure? ==>
        r.error.Unprocessable? && movements == old(movements) && audit.entries == old(audit.entries)
      ensures r.Success? ==>
        var ref := TransferReference(uuidHex);
        && r.value.0 == Movement(old(|movements|), org, p.product, p.fromWarehouse, TRANSFER_OUT, p.quantity, Some(ref), p.notes, user, now)
        && r.value.1 == Movement(old(|movements|) + 1, org, p.product, p.toWarehouse, TRANSFER_IN, p.quantity, Some(ref), p.notes, user, now)
        && movements == old(movements) + [r.value.0, r.value.1]
        && CurrentStock(org, p.product, p.fromWarehouse) == old(CurrentStock(org, p.product, p.fromWarehouse)) - p.quantity
        && CurrentStock(org, p.product, p.toWarehouse) == old(CurrentStock(org, p.product, p.toWarehouse)) + p.quantity
        && ProductTotal(movements, org, p.product) == old(ProductTotal(movements, org, p.product))
        && audit.entries == old(audit.entries)
             + [AppendedEntry(old(audit.entries), org, TransferAudit(p, r.value.0, r.value.1, ref), now)]
    {
      if p.fromWarehouse == p.toWarehouse {
        return Failure(Unprocessable("Source and destination warehouses must be different."));
      }
      var current := Balance(movements, Key(org, p.product, p.fromWarehouse));
      if current < p.quantity {
        return Failure(Unprocessable("Insufficient stock. Available: " + IntText(current) + ", requested: " + IntText(p.quantity) + "."));
      }
      var ref := TransferReference(uuidHex);
      var out := Movement(|movements|, org, p.product, p.fromWarehouse, TRANSFER_OUT, p.quantity, Some(ref), p.notes, user, now);
      var into := Movement(|movements| + 1, org, p.product, p.toWarehouse, TRANSFER_IN, p.quantity, Some(ref), p.notes, user, now);
      ghost var before := movements;
      AppendKeepsNonNegative(movements, out);
      BalanceAppend(movements, out, KeyOf(out));
      BalanceAppend(movements, out, KeyOf(into));
      movements := movements + [out];
      AppendKeepsNonNegative(movements, into);
      BalanceAppend(movements, into, KeyOf(out));
      BalanceAppend(movements, into, KeyOf(into));
      movements := movements + [into];
      assert movements == before + [out, into];
      TransferConservesProductTotal(before, out, into);
      var _ := audit.Log(org, TransferAudit(p, out, into, ref), now);
      r := Success((out, into));
    }

    /** `adjust`: 422 for a zero quantity; for a negative one, 422 when the balance is below its
        magnitude; otherwise one ADJUSTMENT row storing the signed quantity, so the balance
        changes by exactly that quantity. */
    method Adjust(org: Id, user: Id, p: StockAdjustmentCreate, now: Time) returns (r: Result<Movement>)
      requires Valid()
      modifies this`movements, audit
      ensures Valid()
      ensures r.Failure? <==>
        p.quantity == 0 || (p.quantity < 0 && old(CurrentStock(org, p.product, p.warehouse)) < -p.quantity)
      ensures p.quantity == 0 ==> r == Failure(Unprocessable("Adjustment quantity cannot be zero."))
      ensures p.quantity < 0 && old(CurrentStock(org, p.product, p.warehouse)) < -p.quantity ==>
        r == Failure(Unprocessable("Insufficient stock to adjust. Available: "
                                   + IntText(old(CurrentStock(org, p.product, p.warehouse))) + "."))
      ensures r.Failure? ==>
        r.error.Unprocessable? && movements == old(movements) && audit.entries == old(audit.entries)
      ensures r.Success? ==>
        && r.value == Movement(old(|movements|), org, p.product, p.warehouse, ADJUSTMENT, p.quantity, p.reference, p.notes, user, now)
        && movements == old(movements) + [r.value]
        && CurrentStock(org, p.product, p.warehouse) == old(CurrentStock(org, p.product, p.warehouse)) + p.quantity
        && audit.entries == old(audit.entries) + [AppendedEntry(old(audit.entries), org, MovementAudit("STOCK_ADJUSTMENT", r.value), now)]
    {
      if p.quantity == 0 {
        return Failure(Unprocessable("Adjustment quantity cannot be zero."));
      }
      if p.quantity < 0 {
        var current := Balance(movements, Key(org, p.product, p.warehouse));
        if current < -p.quantity {
          return Failure(Unprocessable("Insufficient stock to adjust. Available: " + IntText(current) + "."));
        }
      }
      var m := Movement(|movements|, org, p.product, p.warehouse, ADJUSTMENT, p.quantity, p.reference, p.notes, user, now);
      AppendKeepsNonNegative(movements, m);
      BalanceAppend(movements, m, KeyOf(m));
      movements := movements + [m];
      var _ := audit.Log(org, MovementAudit("STOCK_ADJUSTMENT", m), now);
      r := Success(m);
    }
  }

  /** An integer as Python's `str` renders it inside an error message. */
  function IntText(n: int): string
  {
    if n < 0 then "-" + Digits.Decimal(-n) else Digits.Decimal(n)
  }
}

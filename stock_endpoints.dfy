/** The four stock write endpoints of app/api/v1/endpoints/stock_movements.py: the manager gate
    runs first, then the service call on behalf of the admitted user. */
module StockEndpoints {
  import opened Enums
  import opened Errors
  import opened Catalog
  import opened Rbac
  import opened StockModels
  import opened StockSchemas
  import opened StockLedger

  /** POST /stock/in. STAFF get 403 and the ledger and audit log are left as they were. */
  method PostStockIn(service: StockService, user: User, org: Id, p: StockInCreate, now: Time) returns (r: Result<Movement>)
    requires service.Valid() && p.Valid()
    modifies service`movements, service.audit
    ensures service.Valid()
    ensures r.Failure? <==> !IsManagerRole(user.role)
    ensures r.Failure? ==>
      && r.error == Forbidden("Managers and admins only.")
      && service.movements == old(service.movements) && service.audit.entries == old(service.audit.entries)
    ensures r.Success? ==>
      && service.movements == old(service.movements) + [r.value]
      && r.value.movementType == IN && r.value.createdBy == user.id && r.value.org == org
  {
    var gate := RequireManager(user);
    if gate.Failure? {
      return Failure(gate.error);
    }
    var m := service.StockIn(org, gate.value.id, p, now);
    r := Success(m);
  }

  /** POST /stock/out. */
  method PostStockOut(service: StockService, user: User, org: Id, p: StockOutCreate, now: Time) returns (r: Result<Movement>)
    requires service.Valid() && p.Valid()
    modifies service`movements, service.audit
    ensures service.Valid()
    ensures !IsManagerRole(user.role) ==>
      && r == Failure(Forbidden("Managers and admins only."))
      && service.movements == old(service.movements) && service.audit.entries == old(service.audit.entries)
    ensures r.Failure? ==> service.movements == old(service.movements)
    ensures r.Success? ==>
      && IsManagerRole(user.role)
      && service.movements == old(service.movements) + [r.value]
      && r.value.movementType == OUT && r.value.createdBy == user.id && r.value.org == org
  {
    var gate := RequireManager(user);
    if gate.Failure? {
      return Failure(gate.error);
    }
    r := service.StockOut(org, gate.value.id, p, now);
  }

  /** POST /stock/transfer. */
  method PostTransfer(service: StockService, user: User, org: Id, p: StockTransferCreate, uuidHex: string, now: Time)
    returns (r: Result<(Movement, Movement)>)
    requires service.Valid() && p.Valid()
    requires |uuidHex| == 32 && forall i :: 0 <= i < 32 ==> Digits.IsLowerHex(uuidHex[i])
    modifies service`movements, service.audit
    ensures service.Valid()
    ensures !IsManagerRole(user.role) ==>
      && r == Failure(Forbidden("Managers and admins only."))
      && service.movements == old(service.movements) && service.audit.entries == old(service.audit.entries)
    ensures r.Failure? ==> service.movements == old(service.movements)
    ensures r.Success? ==>
      && IsManagerRole(user.role)
      && service.movements == old(service.movements) + [r.value.0, r.value.1]
      && r.value.0.createdBy == user.id && r.value.1.createdBy == user.id
  {
    var gate := RequireManager(user);
    if gate.Failure? {
      return Failure(gate.error);
    }
    r := service.Transfer(org, gate.value.id, p, uuidHex, now);
  }

  /** POST /stock/adjust. */
  method PostAdjust(service: StockService, user: User, org: Id, p: StockAdjustmentCreate, now: Time) returns (r: Result<Movement>)
    requires service.Valid()
    modifies service`movements, service.audit
    ensures service.Valid()
    ensures !IsManagerRole(user.role) ==>
      && r == Failure(Forbidden("Managers and admins only."))
      && service.movements == old(service.movements) && service.audit.entries == old(service.audit.entries)
    ensures r.Failure? ==> service.movements == old(service.movements)
    ensures r.Success? ==>
      && IsManagerRole(user.role)
      && service.movements == old(service.movements) + [r.value]
      && r.value.movementType == ADJUSTMENT && r.value.createdBy == user.id && r.value.org == org
  {
    var gate := RequireManager(user);
    if gate.Failure? {
      return Failure(gate.error);
    }
    r := service.Adjust(org, gate.value.id, p, now);
  }
}

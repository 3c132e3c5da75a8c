/** The enumerations of app/models/enums.py and the scalar types shared by every module. */
module Enums {

  /** Database identifiers (UUIDs in the system) are opaque; only equality matters. */
  type Id = nat

  /** Timestamps, as a count of seconds. Only comparisons and fixed offsets are used. */
  type Time = int

  const SecondsPerDay: int := 86400

  datatype Role = ADMIN | MANAGER | STAFF

  datatype MovementType = IN | OUT | TRANSFER_IN | TRANSFER_OUT | ADJUSTMENT

  datatype RequestStatus = DRAFT | SUBMITTED | APPROVED | REJECTED | ORDERED

  /** The role that may manage: ADMIN and MANAGER, never STAFF. */
  predicate IsManagerRole(r: Role)
  {
    r == ADMIN || r == MANAGER
  }

  /** The `.value` string of a movement type, as stored in audit snapshots. */
  function MovementTypeName(t: MovementType): (name: string)
    ensures |name| >= 2
  {
    match t
    case IN => "IN"
    case OUT => "OUT"
    case TRANSFER_IN => "TRANSFER_IN"
    case TRANSFER_OUT => "TRANSFER_OUT"
    case ADJUSTMENT => "ADJUSTMENT"
  }

  /** The `.value` string of a request status, as quoted in transition errors. */
  function RequestStatusName(s: RequestStatus): (name: string)
    ensures |name| >= 5
  {
    match s
    case DRAFT => "DRAFT"
    case SUBMITTED => "SUBMITTED"
    case APPROVED => "APPROVED"
    case REJECTED => "REJECTED"
    case ORDERED => "ORDERED"
  }

  /** Distinct movement types are stored under distinct names. */
  lemma MovementTypeNameInjective(s: MovementType, t: MovementType)
    requires MovementTypeName(s) == MovementTypeName(t)
    ensures s == t
  {
  }
}

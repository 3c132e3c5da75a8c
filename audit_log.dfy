/** The audit log of app/services/audit_log.py: an append-only table written by the other
    services inside their own transaction, and two reads over it. */
module AuditLog {
  import opened Enums
  import opened Errors
  import Digits
  import opened Queries

  /** A JSON scalar of a before/after snapshot. */
  datatype Value = Str(s: string) | Int(i: int) | Null

  type Snapshot = map<string, Value>

  /** `str(uuid)` of an identifier, as stored in `entity_id` and in snapshots. */
  function IdText(id: Id): string
  {
    Digits.Decimal(id)
  }

  /** An optional string as a JSON value: null when absent. */
  function OptionalText(s: Option<string>): Value
  {
    match s
    case Some(t) => Str(t)
    case None => Null
  }

  /** What a caller hands to `log` (the AuditLogCreate schema). */
  datatype AuditLogCreate = AuditLogCreate(
    actor: Id,
    action: string,
    entity: string,
    entityId: string,
    before: Option<Snapshot>,
    after: Snapshot,
    ipAddress: Option<string>,
    userAgent: Option<string>)

  /** One audit_logs row. */
  datatype AuditEntry = AuditEntry(
    id: Id,
    org: Id,
    actor: Id,
    action: string,
    entity: string,
    entityId: string,
    before: Option<Snapshot>,
    after: Snapshot,
    timestamp: Time,
    ipAddress: Option<string>,
    userAgent: Option<string>)

  function EntryTime(e: AuditEntry): int
  {
    e.timestamp
  }

  /** The optional filters of `get_all`. */
  datatype AuditFilter = AuditFilter(
    entity: Option<string>,
    entityId: Option<string>,
    actor: Option<Id>,
    action: Option<string>,
    startDate: Option<Time>,
    endDate: Option<Time>)

  /** A string filter applies only when it is truthy: given and non-empty. */
  predicate Given(f: Option<string>)
  {
    f.Some? && f.value != ""
  }

  /** The WHERE clause of `get_all`: the org, then every supplied filter, bounds inclusive. */
  predicate Matches(e: AuditEntry, org: Id, f: AuditFilter)
  {
    && e.org == org
    && (Given(f.entity) ==> e.entity == f.entity.value)
    && (Given(f.entityId) ==> e.entityId == f.entityId.value)
    && (f.actor.Some? ==> e.actor == f.actor.value)
    && (Given(f.action) ==> e.action == f.action.value)
    && (f.startDate.Some? ==> e.timestamp >= f.startDate.value)
    && (f.endDate.Some? ==> e.timestamp <= f.endDate.value)
  }

  /** The entries the WHERE clause selects, in table order. */
  function Selected(entries: seq<AuditEntry>, org: Id, f: AuditFilter): (r: seq<AuditEntry>)
    ensures forall e :: e in r <==> e in entries && Matches(e, org, f)
    ensures multiset(r) <= multiset(entries)
  {
    if entries == [] then []
    else
      var rest := Selected(entries[1..], org, f);
      assert entries == [entries[0]] + entries[1..];
      if Matches(entries[0], org, f) then [entries[0]] + rest else rest
  }

  /** `get_all`: one page of the matching entries, newest first. */
  function GetAll(entries: seq<AuditEntry>, org: Id, f: AuditFilter, skip: nat, limit: nat): (r: seq<AuditEntry>)
    ensures forall e :: e in r ==> e in entries && Matches(e, org, f)
    ensures NewestFirst(r, EntryTime)
    ensures |r| <= limit
    ensures skip == 0 && |Selected(entries, org, f)| <= limit ==>
      forall e :: e in entries && Matches(e, org, f) ==> e in r
    ensures var sel := Selected(entries, org, f);
      |r| == (if skip >= |sel| then 0 else Min(limit, |sel| - skip))
      && exists t :: NewestFirst(t, EntryTime) && multiset(t) == multiset(sel) && r == Page(t, skip, limit)
  {
    NewestPage(Selected(entries, org, f), EntryTime, skip, limit)
  }

  /** Entry ids are unique. */
  ghost predicate UniqueIds(entries: seq<AuditEntry>)
  {
    forall i, j :: 0 <= i < j < |entries| ==> entries[i].id != entries[j].id
  }

  /** Two calls for consecutive pages of the same query share no entry when no two matching
      entries have the same timestamp. Each call may order the matching entries in any newest-first
      way (t1 and t2), as the database may; without ties there is only one such order. */
  lemma ConsecutivePagesDisjoint(entries: seq<AuditEntry>, org: Id, f: AuditFilter, t1: seq<AuditEntry>, t2: seq<AuditEntry>,
                                 skip: nat, n: nat, m: nat, e: AuditEntry)
    requires UniqueIds(entries)
    requires TimesIdentify(Selected(entries, org, f), EntryTime)
    requires NewestFirst(t1, EntryTime) && multiset(t1) == multiset(Selected(entries, org, f))
    requires NewestFirst(t2, EntryTime) && multiset(t2) == multiset(Selected(entries, org, f))
    requires e in Page(t1, skip, n)
    ensures e !in Page(t2, skip + n, m)
  {
    var sel := Selected(entries, org, f);
    assert Distinct(entries);
    DistinctIffSingleOccurrences(entries);
    DistinctIffSingleOccurrences(sel);
    NewestPagesDisjoint(sel, EntryTime, t1, t2, skip, n, m, e);
  }

  /** `get_by_id`: the entry with that id in that org; absent and foreign ids are both 404. */
  function GetById(entries: seq<AuditEntry>, org: Id, id: Id): (r: Result<AuditEntry>)
    ensures r.Success? ==> r.value in entries && r.value.id == id && r.value.org == org
    ensures r.Failure? <==> forall e :: e in entries ==> !(e.id == id && e.org == org)
    ensures r.Failure? ==> r.error == NotFound("Audit log not found.")
  {
    if entries == [] then Failure(NotFound("Audit log not found."))
    else if entries[0].id == id && entries[0].org == org then Success(entries[0])
    else GetById(entries[1..], org, id)
  }

  /** The audit table. Entries are never updated or deleted, so an entry's id is its position. */
  class AuditService {
    var entries: seq<AuditEntry>

    ghost predicate Valid()
      reads this
    {
      forall i :: 0 <= i < |entries| ==> entries[i].id == i
    }

    constructor ()
      ensures Valid() && entries == []
    {
      entries := [];
    }

    /** `log`: appends exactly one entry carrying the caller's org and the payload's fields,
        stamped with the transaction time. Nothing else changes (it flushes, it does not commit). */
    method Log(org: Id, p: AuditLogCreate, now: Time) returns (entry: AuditEntry)
      requires Valid()
      modifies this
      ensures Valid()
      ensures entry == AuditEntry(old(|entries|), org, p.actor, p.action, p.entity, p.entityId,
                                  p.before, p.after, now, p.ipAddress, p.userAgent)
      ensures entries == old(entries) + [entry]
    {
      entry := AuditEntry(|entries|, org, p.actor, p.action, p.entity, p.entityId,
                          p.before, p.after, now, p.ipAddress, p.userAgent);
      entries := entries + [entry];
    }

    /** Positional ids are unique. */
    lemma IdsUnique()
      requires Valid()
      ensures UniqueIds(entries)
    {
    }
  }
}

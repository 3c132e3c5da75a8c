/** The status machine of purchase requests and the guards every workflow operation runs
    before it changes anything (app/services/purchase_request.py). */
module PurchaseRequestWorkflow {
  import opened Enums
  import opened Errors
  import opened PurchaseRequestModels

  /** The transition table: the statuses each status may move to. */
  function Successors(s: RequestStatus): (next: seq<RequestStatus>)
    ensures s !in next && DRAFT !in next
    ensures forall t :: t in next ==> Stage(s) < Stage(t)
  {
    match s
    case DRAFT => [SUBMITTED]
    case SUBMITTED => [APPROVED, REJECTED]
    case APPROVED => [ORDERED]
    case REJECTED => []
    case ORDERED => []
  }

  predicate CanTransition(current: RequestStatus, target: RequestStatus)
  {
    target in Successors(current)
  }

  /** Targets only ADMIN and MANAGER may move a request to. */
  const ManagerOnly: set<RequestStatus> := {APPROVED, REJECTED}

  /** How far along the workflow a status is. */
  function Stage(s: RequestStatus): (n: nat)
    ensures n <= 3
  {
    match s
    case DRAFT => 0
    case SUBMITTED => 1
    case APPROVED => 2
    case REJECTED => 2
    case ORDERED => 3
  }

  /** Every transition moves strictly forward, so no request ever returns to a status it left. */
  lemma TransitionsMoveForward(current: RequestStatus, target: RequestStatus)
    requires CanTransition(current, target)
    ensures Stage(current) < Stage(target)
  {
  }

  /** REJECTED and ORDERED are terminal. */
  lemma TerminalStatuses(target: RequestStatus)
    ensures !CanTransition(REJECTED, target) && !CanTransition(ORDERED, target)
    ensures Successors(REJECTED) == [] && Successors(ORDERED) == []
  {
  }

  /** Approval and rejection are reachable from SUBMITTED only, and ORDERED from APPROVED only. */
  lemma DecisionsFollowSubmission(current: RequestStatus)
    ensures CanTransition(current, APPROVED) <==> current == SUBMITTED
    ensures CanTransition(current, REJECTED) <==> current == SUBMITTED
    ensures CanTransition(current, ORDERED) <==> current == APPROVED
    ensures CanTransition(current, SUBMITTED) <==> current == DRAFT
    ensures !CanTransition(current, DRAFT)
  {
  }

  /** A sequence of statuses each reachable from the previous in one transition. */
  predicate IsPath(p: seq<RequestStatus>)
  {
    forall i :: 0 <= i < |p| - 1 ==> CanTransition(p[i], p[i + 1])
  }

  /** Along a path the stage grows by at least one per step. */
  lemma {:induction false} PathAdvances(p: seq<RequestStatus>)
    requires IsPath(p)
    ensures forall i, j :: 0 <= i < j < |p| ==> Stage(p[i]) + (j - i) <= Stage(p[j])
  {
    if |p| >= 2 {
      PathAdvances(p[1..]);
      forall i, j | 0 <= i < j < |p|
        ensures Stage(p[i]) + (j - i) <= Stage(p[j])
      {
        if i == 0 {
          TransitionsMoveForward(p[0], p[1]);
          if j > 1 {
            assert p[1..][0] == p[1] && p[1..][j - 1] == p[j];
          }
        } else {
          assert p[1..][i - 1] == p[i] && p[1..][j - 1] == p[j];
        }
      }
    }
  }

  /** A request's whole life visits at most four statuses, none of them twice. */
  lemma LifecycleIsShort(p: seq<RequestStatus>)
    requires IsPath(p)
    ensures |p| <= 4
    ensures forall i, j :: 0 <= i < j < |p| ==> p[i] != p[j]
  {
    PathAdvances(p);
    if |p| > 1 {
      assert Stage(p[0]) + (|p| - 1) <= Stage(p[|p| - 1]);
    }
  }

  /** `_assert_transition`: an illegal move is 422 whoever asks; a legal move to a manager-only
      status is 403 for STAFF; anything else passes. */
  function AssertTransition(current: RequestStatus, target: RequestStatus, role: Role): (o: Outcome)
    ensures o.Pass? <==> CanTransition(current, target) && (target in ManagerOnly ==> IsManagerRole(role))
    ensures !CanTransition(current, target) ==>
      o == Fail(Unprocessable("Cannot transition from " + RequestStatusName(current) + " to " + RequestStatusName(target) + "."))
    ensures CanTransition(current, target) && o.Fail? ==>
      o == Fail(Forbidden("Only managers and admins can approve or reject requests."))
  {
    if !CanTransition(current, target) then
      Fail(Unprocessable("Cannot transition from " + RequestStatusName(current) + " to " + RequestStatusName(target) + "."))
    else if target in ManagerOnly && !IsManagerRole(role) then
      Fail(Forbidden("Only managers and admins can approve or reject requests."))
    else
      Pass
  }

  /** STAFF can never approve or reject: a SUBMITTED request gives 403, any other gives 422. */
  lemma StaffCannotDecide(current: RequestStatus, target: RequestStatus)
    requires target in ManagerOnly
    ensures AssertTransition(current, target, STAFF).Fail?
    ensures StatusCode(AssertTransition(current, target, STAFF).error) == if current == SUBMITTED then 403 else 422
  {
  }

  /** Submitting and ordering are open to every role once the move is legal. */
  lemma OpenTransitionsIgnoreRole(current: RequestStatus, target: RequestStatus, a: Role, b: Role)
    requires target !in ManagerOnly
    ensures AssertTransition(current, target, a) == AssertTransition(current, target, b)
  {
  }

  /** `_assert_ownership_or_role`: STAFF may act only on requests they created. */
  function AssertOwnershipOrRole(pr: PurchaseRequest, user: Id, role: Role): (o: Outcome)
    ensures o.Fail? <==> role == STAFF && pr.createdBy != user
    ensures o.Fail? ==> o.error == Forbidden("Access denied.")
  {
    if role == STAFF && pr.createdBy != user then Fail(Forbidden("Access denied.")) else Pass
  }

  /** `_get_or_404`: the position of the request with that id in that organisation. */
  function FindRequest(rs: seq<PurchaseRequest>, org: Id, id: Id): (i: Option<nat>)
    ensures i.Some? ==> i.value < |rs| && rs[i.value].id == id && rs[i.value].org == org
    ensures i.None? <==> forall j :: 0 <= j < |rs| ==> !(rs[j].id == id && rs[j].org == org)
  {
    if rs == [] then None
    else if rs[|rs| - 1].id == id && rs[|rs| - 1].org == org then Some(|rs| - 1)
    else FindRequest(rs[..|rs| - 1], org, id)
  }

  const RequestNotFound: Error := NotFound("Purchase request not found.")

  /** `get_by_id`: 404 when the organisation has no such request, then 403 for STAFF asking
      for another user's request. */
  function GetById(rs: seq<PurchaseRequest>, org: Id, id: Id, user: Id, role: Role): (r: Result<PurchaseRequest>)
    ensures FindRequest(rs, org, id).None? ==> r == Failure(RequestNotFound)
    ensures r.Success? ==>
      && r.value in rs && r.value.id == id && r.value.org == org
      && (role == STAFF ==> r.value.createdBy == user)
    ensures FindRequest(rs, org, id).Some? ==>
      (r.Failure? <==> role == STAFF && rs[FindRequest(rs, org, id).value].createdBy != user)
    ensures r.Failure? ==> r.error in {RequestNotFound, Forbidden("Access denied.")}
  {
    match FindRequest(rs, org, id)
    case None => Failure(RequestNotFound)
    case Some(i) =>
      match AssertOwnershipOrRole(rs[i], user, role)
      case Fail(e) => Failure(e)
      case Pass => Success(rs[i])
  }

  /** The checks of `submit` (ownership-gated), `approve`, `reject` and `mark_ordered`, in their
      order: 404, then the ownership 403 when gated, then `_assert_transition`. On success, the
      position of the request to move. */
  function TransitionGuard(rs: seq<PurchaseRequest>, org: Id, id: Id, user: Id, role: Role,
                           target: RequestStatus, ownerGated: bool): (g: Result<nat>)
    ensures FindRequest(rs, org, id).None? ==> g == Failure(RequestNotFound)
    ensures g.Success? ==> Some(g.value) == FindRequest(rs, org, id)
    ensures FindRequest(rs, org, id).Some? ==>
      var pr := rs[FindRequest(rs, org, id).value];
      && (g.Success? <==>
            (ownerGated && role == STAFF ==> pr.createdBy == user)
            && CanTransition(pr.status, target)
            && (target in ManagerOnly ==> IsManagerRole(role)))
      && (ownerGated && role == STAFF && pr.createdBy != user ==> g == Failure(Forbidden("Access denied.")))
      && (!(ownerGated && role == STAFF && pr.createdBy != user) && g.Failure? ==>
            g == Failure(AssertTransition(pr.status, target, role).error))
  {
    match FindRequest(rs, org, id)
    case None => Failure(RequestNotFound)
    case Some(i) =>
      var own := if ownerGated then AssertOwnershipOrRole(rs[i], user, role) else Pass;
      if own.Fail? then Failure(own.error)
      else
        match AssertTransition(rs[i].status, target, role)
        case Fail(e) => Failure(e)
        case Pass => Success(i)
  }

  /** The checks of `update`: 404, the ownership 403, then 422 unless the request is a DRAFT. */
  function EditGuard(rs: seq<PurchaseRequest>, org: Id, id: Id, user: Id, role: Role): (g: Result<nat>)
    ensures FindRequest(rs, org, id).None? ==> g == Failure(RequestNotFound)
    ensures g.Success? ==> Some(g.value) == FindRequest(rs, org, id)
    ensures FindRequest(rs, org, id).Some? ==>
      var pr := rs[FindRequest(rs, org, id).value];
      && (g.Success? <==> (role == STAFF ==> pr.createdBy == user) && pr.status == DRAFT)
      && (role == STAFF && pr.createdBy != user ==> g == Failure(Forbidden("Access denied.")))
      && (!(role == STAFF && pr.createdBy != user) && pr.status != DRAFT ==>
            g == Failure(Unprocessable("Only DRAFT requests can be edited.")))
  {
    match FindRequest(rs, org, id)
    case None => Failure(RequestNotFound)
    case Some(i) =>
      match AssertOwnershipOrRole(rs[i], user, role)
      case Fail(e) => Failure(e)
      case Pass =>
        if rs[i].status != DRAFT then Failure(Unprocessable("Only DRAFT requests can be edited."))
        else Success(i)
  }

  /** A manager may approve any submitted request of the organisation, their own included; the
      ownership check does not apply to decisions. */
  lemma ManagerMayApproveAnySubmitted(rs: seq<PurchaseRequest>, org: Id, id: Id, user: Id, role: Role)
    requires IsManagerRole(role)
    requires FindRequest(rs, org, id).Some? && rs[FindRequest(rs, org, id).value].status == SUBMITTED
    ensures TransitionGuard(rs, org, id, user, role, APPROVED, false).Success?
    ensures TransitionGuard(rs, org, id, user, role, REJECTED, false).Success?
  {
  }

  /** The status columns agree with the status: approval columns are set exactly on APPROVED and
      ORDERED requests, rejection columns exactly on REJECTED ones, with a non-empty reason. */
  predicate Stamped(r: PurchaseRequest)
  {
    var approved := r.status == APPROVED || r.status == ORDERED;
    var rejected := r.status == REJECTED;
    && r.approvedBy.Some? == approved && r.approvedAt.Some? == approved
    && r.rejectedBy.Some? == rejected && r.rejectedAt.Some? == rejected
    && r.rejectionReason.Some? == rejected
    && (rejected ==> |r.rejectionReason.value| >= 1)
  }

  /** Who may see a request in a listing: same organisation, STAFF only their own, and the
      status filter when one is given. */
  predicate Visible(r: PurchaseRequest, org: Id, user: Id, role: Role, statusFilter: Option<RequestStatus>)
  {
    && r.org == org
    && (role == STAFF ==> r.createdBy == user)
    && (statusFilter.Some? ==> r.status == statusFilter.value)
  }
}

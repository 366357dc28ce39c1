/** The staff operations that the browser offers, against what the server does with the commands built from them. */
module StaffOffers {
  import opened Foundations
  import opened Accounts
  import opened StaffAuthority
  import opened StaffHistory

  /** What the browser sees of an account: mapSafeUser keeps the approver to itself. */
  datatype SafeUser = SafeUser(
    id: Id, role: Role, status: Status, department: Option<Department>, staffApprovedAt: Option<Instant>,
    accessVersion: nat, emailVerifiedAt: Option<Instant>)

  function SafeView(a: Account): SafeUser {
    SafeUser(a.id, a.role, a.status, a.department, a.staffApprovedAt, a.accessVersion, a.emailVerifiedAt)
  }

  /** availableStaffOperations. */
  function Offered(staff: SafeUser): seq<Operation> {
    if staff.role == ADMIN || staff.emailVerifiedAt == None then []
    else match staff.status
      case PENDING_APPROVAL => [APPROVE, REJECT]
      case REJECTED => [APPROVE]
      case ACTIVE => if staff.staffApprovedAt == None then [] else [CHANGE_DEPARTMENT, SUSPEND]
      case SUSPENDED => if staff.staffApprovedAt == None then [APPROVE] else [CHANGE_DEPARTMENT, REACTIVATE]
      case PENDING_VERIFICATION => []
  }

  /** What is offered, status by status, to a verified employee; nothing to anybody else. */
  lemma OfferedExactly(staff: SafeUser, operation: Operation)
    ensures operation in Offered(staff) <==>
      staff.role == USER && staff.emailVerifiedAt.Some? &&
      match operation
      case APPROVE =>
        staff.status in {PENDING_APPROVAL, REJECTED} || (staff.status == SUSPENDED && staff.staffApprovedAt == None)
      case REJECT => staff.status == PENDING_APPROVAL
      case CHANGE_DEPARTMENT => staff.status in {ACTIVE, SUSPENDED} && staff.staffApprovedAt.Some?
      case SUSPEND => staff.status == ACTIVE && staff.staffApprovedAt.Some?
      case REACTIVATE => staff.status == SUSPENDED && staff.staffApprovedAt.Some?
  {
  }

  datatype Intent = ToApprove(department: Department) | ToReject | ToChange(department: Department) | ToSuspend | ToReactivate

  function OperationOf(i: Intent): Operation {
    match i
    case ToApprove(_) => APPROVE
    case ToReject => REJECT
    case ToChange(_) => CHANGE_DEPARTMENT
    case ToSuspend => SUSPEND
    case ToReactivate => REACTIVATE
  }

  /** createStaffCommand, with the service's reading of the body. */
  function BuildCommand(i: Intent, staff: SafeUser, commandId: Id): Request {
    match i
    case ToApprove(d) => Request(APPROVE, Some(d), commandId, staff.accessVersion)
    case ToChange(d) => Request(CHANGE_DEPARTMENT, Some(d), commandId, staff.accessVersion)
    case _ => Request(OperationOf(i), None, commandId, staff.accessVersion)
  }

  predicate SameDepartment(i: Intent, staff: SafeUser) {
    i.ToChange? && staff.department == Some(i.department)
  }

  /** A new command of a current administrator about an existing account, built from what is stored now. */
  predicate Submitted(db: StaffDb, actorId: Id, targetId: Id, commandId: Id) {
    && actorId in db.users && AdministratorNow(db.users[actorId]) && targetId in db.users
    && commandId !in db.decisions && db.users[targetId].accessVersion < MAX_VERSION
  }

  function Answer(db: StaffDb, actorId: Id, targetId: Id, i: Intent, commandId: Id, now: Instant): Outcome
    requires targetId in db.users
  {
    Command(db, actorId, targetId, BuildCommand(i, SafeView(db.users[targetId]), commandId), now).1
  }

  /** A new decision is made; a replay makes none. */
  predicate Decides(o: Outcome) {
    o.Answered? && o.decision.Some? && !o.replayed
  }

  /**
   Offered means accepted: an intent whose operation is offered is always answered, and it decides unless it
   changes to the same department; an intent whose operation is not offered never decides.
   */
  lemma OfferedMeansAccepted(l: Ledger, actorId: Id, targetId: Id, i: Intent, commandId: Id, now: Instant)
    requires LedgerHolds(l) && Submitted(l.db, actorId, targetId, commandId)
    ensures
      var staff, o := SafeView(l.db.users[targetId]), Answer(l.db, actorId, targetId, i, commandId, now);
      if OperationOf(i) in Offered(staff) then o.Answered? && !o.replayed && (Decides(o) <==> !SameDepartment(i, staff))
      else !Decides(o)
  {
    var target := l.db.users[targetId];
    var request := BuildCommand(i, SafeView(target), commandId);
    if target.role == USER {
      OfferResolves(target, i, commandId);
      DecideUnfolds(l.db, l.db.users[actorId], target, request, now);
    }
  }

  lemma OfferResolves(target: Account, i: Intent, commandId: Id)
    requires Consistent(target) && target.role == USER
    ensures
      var staff := SafeView(target);
      var request := BuildCommand(i, staff, commandId);
      var r := Resolve(target, request.operation, request.requestedDepartment);
      if OperationOf(i) in Offered(staff) then (if SameDepartment(i, staff) then r == NoChange else r.Change?)
      else !r.Change?
  {
  }

  function Others(d: Option<Department>): Department {
    if d == Some(SALES) then APPROVAL else SALES
  }

  /** Every offered operation has an intent that decides. */
  lemma OfferedCanDecide(l: Ledger, actorId: Id, targetId: Id, operation: Operation, commandId: Id, now: Instant) returns (i: Intent)
    requires LedgerHolds(l) && Submitted(l.db, actorId, targetId, commandId)
    requires operation in Offered(SafeView(l.db.users[targetId]))
    ensures OperationOf(i) == operation && Decides(Answer(l.db, actorId, targetId, i, commandId, now))
  {
    var other := Others(l.db.users[targetId].department);
    i := match operation
      case APPROVE => ToApprove(other)
      case REJECT => ToReject
      case CHANGE_DEPARTMENT => ToChange(other)
      case SUSPEND => ToSuspend
      case REACTIVATE => ToReactivate;
    OfferedMeansAccepted(l, actorId, targetId, i, commandId, now);
  }

  function LaterAnswer(l: Ledger, events: seq<Event>, actorId: Id, target: Account, i: Intent, commandId: Id, now: Instant): Outcome {
    Command(Run(l, events).db, actorId, target.id, BuildCommand(i, SafeView(target), commandId), now).1
  }

  lemma OldVersionsNeverDecide(db: StaffDb, actorId: Id, targetId: Id, request: Request, now: Instant)
    requires targetId in db.users ==> db.users[targetId].accessVersion != request.expected
    ensures !Decides(Command(db, actorId, targetId, request, now).1)
  {
  }

  /**
   However much happens in between: if any decision, promotion or verification changed the account since it was
   observed, or the account is gone, the command built from the old observation decides nothing.
   */
  lemma StaleSnapshotsNeverDecide(
    l: Ledger, events: seq<Event>, actorId: Id, target: Account, i: Intent, commandId: Id, now: Instant)
    requires LedgerHolds(l) && RegistersNewIds(l, events) && target.id in l.db.users && l.db.users[target.id] == target
    requires target.id in Run(l, events).db.users ==> Changes(l, events, target.id) > 0
    ensures !Decides(LaterAnswer(l, events, actorId, target, i, commandId, now))
  {
    if target.id in Run(l, events).db.users { VersionCountsChanges(l, events, target.id); }
    OldVersionsNeverDecide(Run(l, events).db, actorId, target.id, BuildCommand(i, SafeView(target), commandId), now);
  }

  /** And if nothing changed it, the old observation is the current one, so what it offers is still accepted. */
  lemma UnchangedSnapshotsAreCurrent(l: Ledger, events: seq<Event>, target: Account)
    requires LedgerHolds(l) && RegistersNewIds(l, events) && target.id in l.db.users && l.db.users[target.id] == target
    requires target.id in Run(l, events).db.users
    ensures SafeView(Run(l, events).db.users[target.id]) == SafeView(target) <==> Changes(l, events, target.id) == 0
  {
    VersionCountsChanges(l, events, target.id);
    RunHolds(l, events);
  }
}

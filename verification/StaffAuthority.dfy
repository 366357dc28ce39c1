/**
 The staff authority state machine: the seven decisions about an employee, their retained
 receipts, the one-time bootstrap of the first administrator, and email verification.
 */
module StaffAuthority {
  import opened Foundations
  import opened Accounts

  datatype Operation = APPROVE | REJECT | CHANGE_DEPARTMENT | SUSPEND | REACTIVATE

  datatype Action =
    | DecideApprove | DecideReconsider | DecidePrepareApproval | DecideReject
    | DecideChangeDepartment | DecideSuspend | DecideReactivate

  datatype Request = Request(operation: Operation, requestedDepartment: Option<Department>, commandId: Id, expected: nat)

  datatype StaffError =
    | Unauthorized | NotAdministrator | Restricted | StaffNotFound | AdminTarget
    | CommandConflict | AccessConflict | TransitionConflict

  /** What a decision records of an account. */
  datatype Snapshot = Snapshot(
    version: nat, status: Status, department: Option<Department>, approvedAt: Option<Instant>, approvedById: Option<Id>)

  datatype Decision = Decision(
    commandId: Id, targetId: Id, actorId: Id, targetFullName: string, targetEmail: string, actorFullName: string,
    actorRole: Role, actorStatus: Status, actorVerifiedAt: Option<Instant>, operation: Operation, action: Action,
    requestedDepartment: Option<Department>, before: Snapshot, after: Snapshot, occurredAt: Instant)

  datatype Provisioning = Provisioning(targetId: Id, occurredAt: Instant, beforeVersion: nat, afterVersion: nat)

  datatype StaffDb = StaffDb(users: map<Id, Account>, decisions: map<Id, Decision>, receipt: Option<Provisioning>)

  function SnapshotOf(a: Account): Snapshot {
    Snapshot(a.accessVersion, a.status, a.department, a.staffApprovedAt, a.staffApprovedById)
  }

  // --- resolveStaffTransition ---

  datatype Transition = Transition(action: Action, afterStatus: Status, afterDepartment: Option<Department>, grantsApproval: bool)

  datatype Resolution = NoChange | Unsupported | Change(transition: Transition)

  predicate IsApproved(a: Account) {
    a.staffApprovedAt != None && a.staffApprovedById != None && a.department != None
  }

  function Resolve(a: Account, operation: Operation, requested: Option<Department>): Resolution {
    match operation
    case APPROVE =>
      if requested == None then Unsupported
      else if IsApproved(a) then (if a.department == requested then NoChange else Unsupported)
      else if a.emailVerifiedAt == None then Unsupported
      else (match a.status
        case PENDING_APPROVAL => Change(Transition(DecideApprove, ACTIVE, requested, true))
        case REJECTED => Change(Transition(DecideReconsider, ACTIVE, requested, true))
        case SUSPENDED => Change(Transition(DecidePrepareApproval, SUSPENDED, requested, true))
        case _ => Unsupported)
    case REJECT =>
      if a.status == REJECTED then NoChange
      else if a.status != PENDING_APPROVAL || a.emailVerifiedAt == None || IsApproved(a) then Unsupported
      else Change(Transition(DecideReject, REJECTED, None, false))
    case CHANGE_DEPARTMENT =>
      if requested == None || !IsApproved(a) then Unsupported
      else if a.status != ACTIVE && a.status != SUSPENDED then Unsupported
      else if a.department == requested then NoChange
      else Change(Transition(DecideChangeDepartment, a.status, requested, false))
    case SUSPEND =>
      if !IsApproved(a) then Unsupported
      else if a.status == SUSPENDED then NoChange
      else if a.status != ACTIVE then Unsupported
      else Change(Transition(DecideSuspend, SUSPENDED, a.department, false))
    case REACTIVATE =>
      if !IsApproved(a) then Unsupported
      else if a.status == ACTIVE then NoChange
      else if a.status != SUSPENDED then Unsupported
      else Change(Transition(DecideReactivate, ACTIVE, a.department, false))
  }

  // --- buildStaffUpdateData and buildStaffUpdateWhere ---

  datatype Field<T> = Untouched | Written(value: T)

  datatype Update = Update(
    status: Field<Status>, department: Field<Option<Department>>, approvedAt: Field<Instant>, approvedById: Field<Id>)

  /** Only the fields the named action may change; the access version grows by one in every case. */
  function UpdateData(t: Transition, now: Instant, actorId: Id): Update {
    match t.action
    case DecideApprove => Update(Written(t.afterStatus), Written(t.afterDepartment), Written(now), Written(actorId))
    case DecideReconsider => Update(Written(t.afterStatus), Written(t.afterDepartment), Written(now), Written(actorId))
    case DecidePrepareApproval => Update(Written(t.afterStatus), Written(t.afterDepartment), Written(now), Written(actorId))
    case DecideReject => Update(Written(t.afterStatus), Untouched, Untouched, Untouched)
    case DecideChangeDepartment => Update(Untouched, Written(t.afterDepartment), Untouched, Untouched)
    case DecideSuspend => Update(Written(t.afterStatus), Untouched, Untouched, Untouched)
    case DecideReactivate => Update(Written(t.afterStatus), Untouched, Untouched, Untouched)
  }

  function Applied(a: Account, u: Update): Account {
    a.(status := if u.status.Written? then u.status.value else a.status,
       department := if u.department.Written? then u.department.value else a.department,
       staffApprovedAt := if u.approvedAt.Written? then Some(u.approvedAt.value) else a.staffApprovedAt,
       staffApprovedById := if u.approvedById.Written? then Some(u.approvedById.value) else a.staffApprovedById,
       accessVersion := a.accessVersion + 1)
  }

  /** The where-clause of the conditional update, built from the target as read and tested on the row. */
  predicate UpdateMatches(row: Account, target: Account, expected: nat) {
    && row.id == target.id && row.role == USER && row.accessVersion == expected && row.status == target.status
    && row.emailVerifiedAt != None && row.department == target.department
    && row.staffApprovedAt == target.staffApprovedAt && row.staffApprovedById == target.staffApprovedById
  }

  function DecisionFor(actor: Account, target: Account, request: Request, t: Transition, now: Instant): Decision {
    Decision(request.commandId, target.id, actor.id, target.fullName, target.email, actor.fullName, actor.role,
      actor.status, actor.emailVerifiedAt, request.operation, t.action, request.requestedDepartment, SnapshotOf(target),
      Snapshot(target.accessVersion + 1, t.afterStatus, t.afterDepartment,
        if t.grantsApproval then Some(now) else target.staffApprovedAt,
        if t.grantsApproval then Some(actor.id) else target.staffApprovedById), now)
  }

  // --- One staff command ---

  datatype Outcome = Answered(staff: Account, decision: Option<Decision>, replayed: bool) | Denied(error: StaffError)

  function RequireAdministrator(a: Account): Option<StaffError> {
    if a.role != ADMIN then Some(NotAdministrator)
    else if a.status != ACTIVE || a.emailVerifiedAt == None then Some(Restricted)
    else None
  }

  function Replay(target: Account, receipt: Decision, actorId: Id, targetId: Id, request: Request): Outcome {
    if receipt.actorId != actorId || receipt.targetId != targetId || receipt.operation != request.operation
      || receipt.requestedDepartment != request.requestedDepartment || receipt.before.version != request.expected
    then Denied(CommandConflict)
    else if SnapshotOf(target) != receipt.after then Denied(AccessConflict)
    else Answered(target, Some(receipt), true)
  }

  function Decide(db: StaffDb, actor: Account, target: Account, request: Request, now: Instant): (StaffDb, Outcome) {
    if target.accessVersion != request.expected then (db, Denied(AccessConflict))
    else match Resolve(target, request.operation, request.requestedDepartment)
      case Unsupported => (db, Denied(TransitionConflict))
      case NoChange => (db, Answered(target, None, false))
      case Change(t) =>
        if target.accessVersion >= MAX_VERSION then (db, Denied(TransitionConflict))
        else if !UpdateMatches(target, target, request.expected) then (db, Denied(AccessConflict))
        else
          var written := Applied(target, UpdateData(t, now, actor.id));
          var decision := DecisionFor(actor, target, request, t, now);
          (db.(users := db.users[target.id := written], decisions := db.decisions[request.commandId := decision]),
           Answered(written, Some(decision), false))
  }

  /** applyStaffCommand, had it run alone. */
  function Command(db: StaffDb, actorId: Id, targetId: Id, request: Request, now: Instant): (StaffDb, Outcome) {
    if actorId !in db.users then (db, Denied(Unauthorized))
    else if RequireAdministrator(db.users[actorId]).Some? then (db, Denied(RequireAdministrator(db.users[actorId]).value))
    else if targetId !in db.users then (db, Denied(StaffNotFound))
    else if db.users[targetId].role == ADMIN then (db, Denied(AdminTarget))
    else if request.commandId in db.decisions then
      (db, Replay(db.users[targetId], db.decisions[request.commandId], actorId, targetId, request))
    else Decide(db, db.users[actorId], db.users[targetId], request, now)
  }

  // --- The bootstrap ---

  datatype Nomination = Nomination(userId: Id, expectedEmail: string, expected: nat)

  datatype Reason = ELIGIBLE | INITIAL_ADMIN_EXISTS | INVALID_CANDIDATE | STALE_CANDIDATE

  predicate Candidate(a: Account) {
    a.role == USER && a.status == PENDING_APPROVAL && a.emailVerifiedAt != None
    && a.department == None && a.staffApprovedAt == None && a.staffApprovedById == None
  }

  /** evaluateInitialAdministratorEligibility. */
  function Evaluate(candidate: Option<Account>, administrators: nat, receiptPresent: bool, n: Nomination): Reason {
    if administrators > 0 || receiptPresent then INITIAL_ADMIN_EXISTS
    else if candidate == None || !Candidate(candidate.value) then INVALID_CANDIDATE
    else if candidate.value.email != n.expectedEmail || candidate.value.accessVersion != n.expected
      || candidate.value.accessVersion >= MAX_VERSION then STALE_CANDIDATE
    else ELIGIBLE
  }

  function Administrators(users: map<Id, Account>): set<Id> {
    set u | u in users && users[u].role == ADMIN
  }

  function Found(users: map<Id, Account>, id: Id): Option<Account> {
    if id in users then Some(users[id]) else None
  }

  function Promoted(a: Account): Account {
    a.(role := ADMIN, status := ACTIVE, accessVersion := a.accessVersion + 1)
  }

  function Bootstrap(db: StaffDb, n: Nomination, now: Instant): (StaffDb, Reason) {
    var reason := Evaluate(Found(db.users, n.userId), |Administrators(db.users)|, db.receipt.Some?, n);
    if reason != ELIGIBLE then (db, reason)
    else
      var a := db.users[n.userId];
      (db.(users := db.users[n.userId := Promoted(a)],
           receipt := Some(Provisioning(a.id, now, a.accessVersion, a.accessVersion + 1))), reason)
  }

  // --- Registration and verification, as far as authority goes ---

  predicate NewAccount(a: Account) {
    a.role == USER && a.status == PENDING_VERIFICATION && a.department == None && a.staffApprovedAt == None
    && a.staffApprovedById == None && a.accessVersion == 0 && a.emailVerifiedAt == None
  }

  /** The account after a token was consumed, or None when the account is not waiting for one. */
  function Verified(a: Account, now: Instant): Option<Account> {
    if a.status != PENDING_VERIFICATION || a.emailVerifiedAt != None then None
    else Some(a.(status := if a.role == ADMIN then ACTIVE else PENDING_APPROVAL, emailVerifiedAt := Some(now),
                 accessVersion := a.accessVersion + 1))
  }

  /** The write of verifyEmail; a version that cannot grow any more makes the statement fail. */
  function VerifyAccount(users: map<Id, Account>, id: Id, now: Instant): map<Id, Account> {
    if id !in users || Verified(users[id], now) == None || users[id].accessVersion >= MAX_VERSION then users
    else users[id := Verified(users[id], now).value]
  }

  // --- What the writes mean ---

  /**
   The partial update writes exactly the snapshot that the decision records, except that rejecting an
   account which still carries a department would leave that department in the row.
   */
  lemma UpdateWritesTheDecision(actor: Account, target: Account, request: Request, now: Instant)
    requires Resolve(target, request.operation, request.requestedDepartment).Change?
    ensures
      var t := Resolve(target, request.operation, request.requestedDepartment).transition;
      SnapshotOf(Applied(target, UpdateData(t, now, actor.id))) == DecisionFor(actor, target, request, t, now).after
      <==> (request.operation == REJECT ==> target.department == None)
  {
  }

  /** A row that the update would not match the decision of: it is pending and yet has a department. */
  lemma RejectingADepartmentMismatches()
    ensures exists target, actor, request, now :: MismatchedRejection(target, actor, request, now)
  {
    var pending := Account(1, "a@b", "A", None, USER, PENDING_APPROVAL, Some(SALES), None, None, 1, Some(0));
    var admin := Account(2, "c@d", "C", None, ADMIN, ACTIVE, None, None, None, 1, Some(0));
    assert MismatchedRejection(pending, admin, Request(REJECT, None, 7, 1), 5);
  }

  predicate MismatchedRejection(target: Account, actor: Account, request: Request, now: Instant) {
    var r := Resolve(target, request.operation, request.requestedDepartment);
    r.Change? && SnapshotOf(Applied(target, UpdateData(r.transition, now, actor.id)))
      != DecisionFor(actor, target, request, r.transition, now).after
  }

  /** The guard of the update matches exactly a verified employee whose row is still as it was read, at the expected version. */
  lemma GuardMatchesExactly(row: Account, target: Account, expected: nat)
    ensures UpdateMatches(row, target, expected) <==>
      row.id == target.id && row.role == USER && row.emailVerifiedAt.Some?
      && SnapshotOf(row) == SnapshotOf(target).(version := expected)
  {
  }

  /** The CHECK constraints that the database puts on a retained decision. */
  predicate DecisionChecks(d: Decision) {
    && d.actorRole == ADMIN && d.actorStatus == ACTIVE && d.actorVerifiedAt != None
    && d.after.version == d.before.version + 1
    && (d.before.approvedAt == None <==> d.before.approvedById == None)
    && (d.after.approvedAt == None <==> d.after.approvedById == None)
    && match d.action
      case DecideApprove => d.operation == APPROVE && d.before.status == PENDING_APPROVAL && d.after.status == ACTIVE && Grants(d)
      case DecideReconsider => d.operation == APPROVE && d.before.status == REJECTED && d.after.status == ACTIVE && Grants(d)
      case DecidePrepareApproval =>
        d.operation == APPROVE && d.before.status == SUSPENDED && d.after.status == SUSPENDED && Grants(d)
      case DecideReject =>
        d.operation == REJECT && d.before.status == PENDING_APPROVAL && d.after.status == REJECTED
        && d.before.department == None && d.before.approvedAt == None && d.after.department == None && d.after.approvedAt == None
      case DecideChangeDepartment =>
        d.operation == CHANGE_DEPARTMENT && d.before.status in {ACTIVE, SUSPENDED} && d.after.status == d.before.status
        && d.after.department == d.requestedDepartment != None && d.after.department != d.before.department && KeepsApproval(d)
      case DecideSuspend =>
        d.operation == SUSPEND && d.before.status == ACTIVE && d.after.status == SUSPENDED
        && d.after.department == d.before.department && KeepsApproval(d)
      case DecideReactivate =>
        d.operation == REACTIVATE && d.before.status == SUSPENDED && d.after.status == ACTIVE
        && d.after.department == d.before.department && KeepsApproval(d)
  }

  predicate Grants(d: Decision) {
    d.before.department == None && d.before.approvedAt == None
    && d.after.department == d.requestedDepartment != None && d.after.approvedAt != None
  }

  predicate KeepsApproval(d: Decision) {
    d.before.department != None && d.before.approvedAt != None
    && d.after.approvedAt == d.before.approvedAt && d.after.approvedById == d.before.approvedById
  }

  predicate AdministratorNow(a: Account) {
    RequireAdministrator(a) == None
  }

  /** On a consistent employee: the guarded update matches its locked row, and every constraint accepts its result. */
  lemma SoundDecision(actor: Account, target: Account, request: Request, t: Transition, now: Instant)
    requires Consistent(target) && target.role == USER && AdministratorNow(actor)
    requires Resolve(target, request.operation, request.requestedDepartment) == Change(t)
    requires target.accessVersion == request.expected < MAX_VERSION
    ensures UpdateMatches(target, target, request.expected)
    ensures
      var written, d := Applied(target, UpdateData(t, now, actor.id)), DecisionFor(actor, target, request, t, now);
      Consistent(written) && DecisionChecks(d) && SnapshotOf(written) == d.after
      && written.accessVersion == target.accessVersion + 1 && written.role == USER && written.id == target.id
      && written.status in {ACTIVE, REJECTED, SUSPENDED}
  {
  }

  /** So the only refusals of a decided command are a stale version and an unsupported state. */
  lemma DecideUnfolds(db: StaffDb, actor: Account, target: Account, request: Request, now: Instant)
    requires Consistent(target) && target.role == USER && AdministratorNow(actor)
    ensures
      var r := Resolve(target, request.operation, request.requestedDepartment);
      var effective := target.accessVersion == request.expected < MAX_VERSION && r.Change?;
      if effective then Decide(db, actor, target, request, now) == DecidedTables(db, actor, target, request, r.transition, now)
      else Decide(db, actor, target, request, now).0 == db
  {
    var r := Resolve(target, request.operation, request.requestedDepartment);
    if target.accessVersion == request.expected < MAX_VERSION && r.Change? {
      SoundDecision(actor, target, request, r.transition, now);
    }
  }

  function DecidedTables(db: StaffDb, actor: Account, target: Account, request: Request, t: Transition, now: Instant): (StaffDb, Outcome) {
    var written, d := Applied(target, UpdateData(t, now, actor.id)), DecisionFor(actor, target, request, t, now);
    (db.(users := db.users[target.id := written], decisions := db.decisions[request.commandId := d]),
     Answered(written, Some(d), false))
  }

  lemma PromotionIsConsistent(a: Account, n: Nomination)
    requires Consistent(a) && Evaluate(Some(a), 0, false, n) == ELIGIBLE
    ensures Consistent(Promoted(a)) && Promoted(a).accessVersion == a.accessVersion + 1 && AdministratorNow(Promoted(a))
  {
  }

  /** Verification keeps an account consistent, as long as its version can still grow. */
  lemma VerificationIsConsistent(a: Account, now: Instant)
    requires Consistent(a) && Verified(a, now).Some?
    ensures Consistent(Verified(a, now).value) <==> a.accessVersion < MAX_VERSION
  {
  }
}

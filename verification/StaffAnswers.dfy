/**
 What a staff command, a nomination and a verification answer, told by the columns of the accounts: who may ask, when
 an intent is already met, when it can be met, and what meeting it writes.
 */
module StaffAnswers {
  import opened Foundations
  import opened Accounts
  import opened StaffAuthority
  import opened StaffHistory

  predicate Administers(a: Account) {
    a.role == ADMIN && a.status == ACTIVE && a.emailVerifiedAt.Some?
  }

  predicate Placed(a: Account) {
    a.staffApprovedAt.Some? && a.staffApprovedById.Some? && a.department.Some?
  }

  /** The account is as the request wants it. */
  predicate Meets(a: Account, request: Request) {
    match request.operation
    case APPROVE => Placed(a) && a.department == request.requestedDepartment
    case REJECT => a.status == REJECTED
    case CHANGE_DEPARTMENT => Placed(a) && a.status in {ACTIVE, SUSPENDED} && a.department == request.requestedDepartment
    case SUSPEND => Placed(a) && a.status == SUSPENDED
    case REACTIVATE => Placed(a) && a.status == ACTIVE
  }

  /** The account can still be brought there. */
  predicate CanMeet(a: Account, request: Request) {
    match request.operation
    case APPROVE =>
      request.requestedDepartment.Some? && !Placed(a) && a.emailVerifiedAt.Some?
      && a.status in {PENDING_APPROVAL, REJECTED, SUSPENDED}
    case REJECT => a.status == PENDING_APPROVAL && a.emailVerifiedAt.Some? && !Placed(a)
    case CHANGE_DEPARTMENT => request.requestedDepartment.Some? && Placed(a) && a.status in {ACTIVE, SUSPENDED}
    case SUSPEND => Placed(a) && a.status == ACTIVE
    case REACTIVATE => Placed(a) && a.status == SUSPENDED
  }

  /** The account once the request is met: an approval places it, a suspended account stays suspended by it. */
  function Met(a: Account, request: Request, actorId: Id, now: Instant): Account {
    var next := a.(accessVersion := a.accessVersion + 1);
    match request.operation
    case APPROVE =>
      next.(status := if a.status == SUSPENDED then SUSPENDED else ACTIVE, department := request.requestedDepartment,
            staffApprovedAt := Some(now), staffApprovedById := Some(actorId))
    case REJECT => next.(status := REJECTED)
    case CHANGE_DEPARTMENT => next.(department := request.requestedDepartment)
    case SUSPEND => next.(status := SUSPENDED)
    case REACTIVATE => next.(status := ACTIVE)
  }

  // --- Who may ask about whom ---

  /** What refuses a request before its content is looked at. */
  function Barred(users: map<Id, Account>, actorId: Id, targetId: Id): Option<StaffError> {
    if actorId !in users then Some(Unauthorized)
    else if users[actorId].role == USER then Some(NotAdministrator)
    else if !Administers(users[actorId]) then Some(Restricted)
    else if targetId !in users then Some(StaffNotFound)
    else if users[targetId].role == ADMIN then Some(AdminTarget)
    else None
  }

  /** Whoever is not a verified active administrator, or asks about no employee, is refused and changes nothing. */
  lemma BarredIsRefused(db: StaffDb, actorId: Id, targetId: Id, request: Request, now: Instant)
    ensures Barred(db.users, actorId, targetId).Some? ==>
      Command(db, actorId, targetId, request, now) == (db, Denied(Barred(db.users, actorId, targetId).value))
    ensures Barred(db.users, actorId, targetId) == None ==>
      Command(db, actorId, targetId, request, now).1.Denied? ==>
      Command(db, actorId, targetId, request, now).1.error in {CommandConflict, AccessConflict, TransitionConflict}
  {
  }

  // --- A new command ---

  /** Nothing is decided when the request is stale, already met, or cannot be met; and each of these has its own answer. */
  lemma UndecidedAnswers(l: Ledger, actorId: Id, targetId: Id, request: Request, now: Instant)
    requires LedgerHolds(l) && Barred(l.db.users, actorId, targetId) == None && request.commandId !in l.db.decisions
    ensures
      var a, c := l.db.users[targetId], Command(l.db, actorId, targetId, request, now);
      && (a.accessVersion != request.expected ==> c == (l.db, Denied(AccessConflict)))
      && (a.accessVersion == request.expected && Meets(a, request) ==> c == (l.db, Answered(a, None, false)))
      && (a.accessVersion == request.expected && !Meets(a, request) && (!CanMeet(a, request) || a.accessVersion >= MAX_VERSION)
          ==> c == (l.db, Denied(TransitionConflict)))
  {
    assert Consistent(l.db.users[targetId]);
  }

  /** The three resolutions, for any account whatsoever. */
  lemma ResolvedExactly(a: Account, request: Request)
    ensures Resolve(a, request.operation, request.requestedDepartment).Change? <==> !Meets(a, request) && CanMeet(a, request)
    ensures Resolve(a, request.operation, request.requestedDepartment).NoChange? <==> Meets(a, request)
  {
  }

  lemma WrittenExactly(actor: Account, a: Account, request: Request, t: Transition, now: Instant)
    requires Consistent(a) && Resolve(a, request.operation, request.requestedDepartment) == Change(t)
    ensures Applied(a, UpdateData(t, now, actor.id)) == Met(a, request, actor.id, now)
  {
  }

  /** A current request that is not met and can be met is decided, and the one account it names is as it wants it. */
  lemma DecidedAnswers(l: Ledger, actorId: Id, targetId: Id, request: Request, now: Instant)
    requires LedgerHolds(l) && Barred(l.db.users, actorId, targetId) == None && request.commandId !in l.db.decisions
    requires l.db.users[targetId].accessVersion == request.expected < MAX_VERSION
    requires !Meets(l.db.users[targetId], request) && CanMeet(l.db.users[targetId], request)
    ensures
      var (db, o) := Command(l.db, actorId, targetId, request, now);
      var met := Met(l.db.users[targetId], request, actorId, now);
      && Meets(met, request) && Consistent(met)
      && o.Answered? && o.staff == met && o.decision.Some? && !o.replayed
      && db.users == l.db.users[targetId := met] && db.receipt == l.db.receipt
      && db.decisions == l.db.decisions[request.commandId := o.decision.value]
  {
    var actor, a := l.db.users[actorId], l.db.users[targetId];
    assert Consistent(a) && a.id == targetId && actor.id == actorId;
    ResolvedExactly(a, request);
    var t := Resolve(a, request.operation, request.requestedDepartment).transition;
    DecideUnfolds(l.db, actor, a, request, now);
    SoundDecision(actor, a, request, t, now);
    WrittenExactly(actor, a, request, t, now);
  }

  /** Whatever is answered, now or from a receipt, the account that is returned is stored and meets the request. */
  lemma AnsweredMeansMet(l: Ledger, actorId: Id, targetId: Id, request: Request, now: Instant)
    requires LedgerHolds(l) && Command(l.db, actorId, targetId, request, now).1.Answered?
    ensures
      var (db, o) := Command(l.db, actorId, targetId, request, now);
      Meets(o.staff, request) && targetId in db.users && db.users[targetId] == o.staff
  {
    var users := l.db.users;
    BarredIsRefused(l.db, actorId, targetId, request, now);
    if request.commandId in l.db.decisions {
      ReplayDecidesNothing(l, actorId, targetId, request, now);
      ReceiptMeets(l, l.db.decisions[request.commandId], request);
    } else {
      UndecidedAnswers(l, actorId, targetId, request, now);
      if !Meets(users[targetId], request) { DecidedAnswers(l, actorId, targetId, request, now); }
    }
  }

  lemma ReceiptMeets(l: Ledger, d: Decision, request: Request)
    requires LedgerHolds(l) && d.commandId in l.db.decisions && l.db.decisions[d.commandId] == d
    requires d.operation == request.operation && d.requestedDepartment == request.requestedDepartment
    requires StillCurrent(l.db.users, d)
    ensures Meets(l.db.users[d.targetId], request)
  {
    assert d in l.log && DecisionChecks(d);
    ReceiptMatchesByVersion(l, d);
  }

  /** A retained command is a conflict for any other content, and stale once the account has moved on. */
  lemma ReplayAnswers(l: Ledger, actorId: Id, targetId: Id, request: Request, now: Instant)
    requires LedgerHolds(l) && Barred(l.db.users, actorId, targetId) == None && request.commandId in l.db.decisions
    ensures
      var d, c := l.db.decisions[request.commandId], Command(l.db, actorId, targetId, request, now);
      var same := d.actorId == actorId && d.targetId == targetId && d.operation == request.operation
        && d.requestedDepartment == request.requestedDepartment && d.before.version == request.expected;
      && (!same ==> c == (l.db, Denied(CommandConflict)))
      && (same && l.db.users[targetId].accessVersion == d.after.version ==> c == (l.db, Answered(l.db.users[targetId], Some(d), true)))
      && (same && l.db.users[targetId].accessVersion != d.after.version ==> c == (l.db, Denied(AccessConflict)))
  {
    var d := l.db.decisions[request.commandId];
    assert d in l.log;
    ReceiptMatchesByVersion(l, d);
  }

  /** What the receipt of a decision says of the account before and after. */
  lemma DecisionNamesItsAction(l: Ledger, actorId: Id, targetId: Id, request: Request, now: Instant)
    requires LedgerHolds(l) && Barred(l.db.users, actorId, targetId) == None && request.commandId !in l.db.decisions
    requires l.db.users[targetId].accessVersion == request.expected < MAX_VERSION
    requires !Meets(l.db.users[targetId], request) && CanMeet(l.db.users[targetId], request)
    ensures
      var a, o := l.db.users[targetId], Command(l.db, actorId, targetId, request, now).1;
      o.Answered? && o.decision.Some? && o.decision.value.action == match request.operation
        case APPROVE =>
          if a.status == PENDING_APPROVAL then DecideApprove else if a.status == REJECTED then DecideReconsider
          else DecidePrepareApproval
        case REJECT => DecideReject
        case CHANGE_DEPARTMENT => DecideChangeDepartment
        case SUSPEND => DecideSuspend
        case REACTIVATE => DecideReactivate
  {
    DecidedAnswers(l, actorId, targetId, request, now);
    assert Consistent(l.db.users[targetId]);
  }

  // --- The first administrator ---

  predicate Nominable(a: Account) {
    && a.role == USER && a.status == PENDING_APPROVAL && a.emailVerifiedAt.Some?
    && a.department == None && a.staffApprovedAt == None && a.staffApprovedById == None
  }

  predicate NobodyAdministers(db: StaffDb) {
    db.receipt == None && forall u | u in db.users :: db.users[u].role == USER
  }

  /** A nomination succeeds exactly for the pending employee it describes, while there is no administrator. */
  lemma NominationAnswers(db: StaffDb, n: Nomination, now: Instant)
    requires forall u | u in db.users :: db.users[u].id == u
    ensures
      var (after, reason) := Bootstrap(db, n, now);
      var a := if n.userId in db.users then Some(db.users[n.userId]) else None;
      && (reason == INITIAL_ADMIN_EXISTS <==> !NobodyAdministers(db))
      && (reason == INVALID_CANDIDATE <==> NobodyAdministers(db) && (a == None || !Nominable(a.value)))
      && (reason == ELIGIBLE <==>
            NobodyAdministers(db) && a.Some? && Nominable(a.value) && a.value.email == n.expectedEmail
            && a.value.accessVersion == n.expected < MAX_VERSION)
      && after == (if reason != ELIGIBLE then db else db.(
            users := db.users[n.userId := a.value.(role := ADMIN, status := ACTIVE, accessVersion := n.expected + 1)],
            receipt := Some(Provisioning(n.userId, now, n.expected, n.expected + 1))))
  {
    if |Administrators(db.users)| == 0 {
      assert forall u | u in db.users :: u !in Administrators(db.users);
    } else {
      assert Administrators(db.users) != {};
    }
  }

  // --- Verification ---

  /** A verification takes an unverified account, once, to its approval, or an administrator to work. */
  lemma VerificationAnswers(l: Ledger, id: Id, now: Instant)
    ensures
      var users := l.db.users;
      Next(l, Verify(id, now)).db.users ==
        if id in users && users[id].status == PENDING_VERIFICATION && users[id].emailVerifiedAt == None
          && users[id].accessVersion < MAX_VERSION
        then users[id := users[id].(
          status := if users[id].role == ADMIN then ACTIVE else PENDING_APPROVAL,
          emailVerifiedAt := Some(now), accessVersion := users[id].accessVersion + 1)]
        else users
  {
  }

  /**
   A registration adds an unverified employee under a new id, only an unverified account is discarded, and a profile
   write keeps authority.
   */
  lemma OtherEventsTell(l: Ledger, a: Account, id: Id, fullName: string, phone: Option<string>)
    requires a.role == USER && a.status == PENDING_VERIFICATION && a.emailVerifiedAt == None && a.accessVersion == 0
    requires a.department == None && a.staffApprovedAt == None && a.staffApprovedById == None
    ensures Next(l, Register(a)).db.users == if a.id in l.db.users then l.db.users else l.db.users[a.id := a]
    ensures Next(l, Discard(id)).db.users ==
      if id in l.db.users && l.db.users[id].status == PENDING_VERIFICATION && l.db.users[id].emailVerifiedAt == None
      then l.db.users - {id} else l.db.users
    ensures id in l.db.users ==>
      Next(l, EditProfile(id, fullName, phone)).db.users == l.db.users[id := l.db.users[id].(fullName := fullName, phone := phone)]
  {
  }
}

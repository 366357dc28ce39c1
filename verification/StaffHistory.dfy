/** Every run of staff commands, bootstrap attempts, registrations and verifications, and what it keeps. */
module StaffHistory {
  import opened Foundations
  import opened Accounts
  import opened StaffAuthority

  /** The tables, and the retained decisions in the order in which they were committed. */
  datatype Ledger = Ledger(db: StaffDb, log: seq<Decision>)

  datatype Event =
    | Ask(actorId: Id, targetId: Id, request: Request, now: Instant)
    | Nominate(nomination: Nomination, now: Instant)
    | Register(account: Account)
    | Verify(id: Id, now: Instant)
    | Discard(id: Id)
    | EditProfile(id: Id, fullName: string, phone: Option<string>)

  function Commit(l: Ledger, actorId: Id, targetId: Id, request: Request, now: Instant): Ledger {
    var db := Command(l.db, actorId, targetId, request, now).0;
    Ledger(db, if request.commandId in db.decisions && request.commandId !in l.db.decisions
      then l.log + [db.decisions[request.commandId]] else l.log)
  }

  function WithUsers(l: Ledger, users: map<Id, Account>): Ledger {
    l.(db := l.db.(users := users))
  }

  function Next(l: Ledger, e: Event): Ledger {
    var users := l.db.users;
    match e
    case Ask(actorId, targetId, request, now) => Commit(l, actorId, targetId, request, now)
    case Nominate(n, now) => l.(db := Bootstrap(l.db, n, now).0)
    case Register(a) => if NewAccount(a) && a.id !in users then WithUsers(l, users[a.id := a]) else l
    case Verify(id, now) => WithUsers(l, VerifyAccount(users, id, now))
    case Discard(id) =>
      if id in users && users[id].status == PENDING_VERIFICATION && users[id].emailVerifiedAt == None
      then WithUsers(l, users - {id}) else l
    case EditProfile(id, fullName, phone) =>
      if id in users then WithUsers(l, users[id := users[id].(fullName := fullName, phone := phone)]) else l
  }

  function Run(l: Ledger, events: seq<Event>): Ledger {
    if events == [] then l else Next(Run(l, events[..|events| - 1]), events[|events| - 1])
  }

  /** The decisions about one account, oldest first. */
  function Trail(log: seq<Decision>, id: Id): seq<Decision> {
    if log == [] then []
    else
      var last := log[|log| - 1];
      Trail(log[..|log| - 1], id) + if last.targetId == id then [last] else []
  }

  predicate Contiguous(trail: seq<Decision>) {
    forall i | 0 < i < |trail| :: trail[i].before == trail[i - 1].after
  }

  predicate AllChecked(log: seq<Decision>) {
    forall d | d in log :: DecisionChecks(d)
  }

  predicate Decided(s: Status) {
    s == ACTIVE || s == REJECTED || s == SUSPENDED
  }

  /** Where the trail of an account ends, the row stands: the row is the last after-snapshot. */
  predicate EndsAtRow(users: map<Id, Account>, trail: seq<Decision>, id: Id) {
    trail != [] ==>
      id in users && users[id].role == USER && Decided(users[id].status) && SnapshotOf(users[id]) == trail[|trail| - 1].after
  }

  predicate TrailHolds(users: map<Id, Account>, trail: seq<Decision>, id: Id) {
    Contiguous(trail) && EndsAtRow(users, trail, id)
  }

  predicate UsersHold(users: map<Id, Account>) {
    forall u | u in users :: users[u].id == u && Consistent(users[u])
  }

  predicate LogHolds(decisions: map<Id, Decision>, log: seq<Decision>) {
    && AllChecked(log)
    && (forall i, j :: 0 <= i < j < |log| ==> log[i].commandId != log[j].commandId)
    && (forall d | d in log :: d.commandId in decisions && decisions[d.commandId] == d)
    && (forall c | c in decisions :: decisions[c].commandId == c && decisions[c] in log)
  }

  /** The account named by the receipt is an administrator that no decision has ever been made about. */
  predicate ReceiptHolds(users: map<Id, Account>, log: seq<Decision>, receipt: Option<Provisioning>) {
    match receipt
    case None => true
    case Some(p) =>
      && p.targetId in users && users[p.targetId].role == ADMIN && users[p.targetId].status == ACTIVE
      && p.afterVersion == p.beforeVersion + 1 == users[p.targetId].accessVersion && Trail(log, p.targetId) == []
  }

  ghost predicate LedgerHolds(l: Ledger) {
    && UsersHold(l.db.users) && LogHolds(l.db.decisions, l.log) && ReceiptHolds(l.db.users, l.log, l.db.receipt)
    && forall id: Id :: TrailHolds(l.db.users, Trail(l.log, id), id)
  }

  lemma TrailGrows(log: seq<Decision>, d: Decision, id: Id)
    ensures Trail(log + [d], id) == if d.targetId == id then Trail(log, id) + [d] else Trail(log, id)
  {
    assert (log + [d])[..|log|] == log;
    assert Trail(log, id) + [] == Trail(log, id);
  }

  lemma LogGrows(decisions: map<Id, Decision>, log: seq<Decision>, d: Decision)
    requires LogHolds(decisions, log) && DecisionChecks(d) && d.commandId !in decisions
    ensures LogHolds(decisions[d.commandId := d], log + [d])
  {
    var more := decisions[d.commandId := d];
    assert forall x | x in log + [d] :: x in log || x == d;
    forall c | c in more ensures more[c].commandId == c && more[c] in log + [d] {
      if c == d.commandId { assert (log + [d])[|log|] == d; } else { assert decisions[c] in log; }
    }
  }

  lemma DecidedTrailHolds(users: map<Id, Account>, trail: seq<Decision>, d: Decision, written: Account)
    requires TrailHolds(users, trail, d.targetId) && d.targetId in users && d.before == SnapshotOf(users[d.targetId])
    requires d.after == SnapshotOf(written) && written.role == USER && Decided(written.status)
    ensures TrailHolds(users[d.targetId := written], trail + [d], d.targetId)
  {
  }

  lemma OtherTrailHolds(users: map<Id, Account>, trail: seq<Decision>, id: Id, other: Id, a: Account)
    requires TrailHolds(users, trail, id) && (other != id || trail == [])
    ensures TrailHolds(users[other := a], trail, id)
  {
  }

  lemma EveryTrailHolds(l: Ledger, d: Decision, written: Account, id: Id)
    requires LedgerHolds(l) && d.targetId in l.db.users && d.before == SnapshotOf(l.db.users[d.targetId])
    requires d.after == SnapshotOf(written) && written.role == USER && Decided(written.status)
    ensures TrailHolds(l.db.users[d.targetId := written], Trail(l.log + [d], id), id)
  {
    TrailGrows(l.log, d, id);
    assert TrailHolds(l.db.users, Trail(l.log, id), id);
    if id == d.targetId {
      DecidedTrailHolds(l.db.users, Trail(l.log, id), d, written);
    } else {
      OtherTrailHolds(l.db.users, Trail(l.log, id), id, d.targetId, written);
    }
  }

  lemma ReceiptKept(users: map<Id, Account>, log: seq<Decision>, receipt: Option<Provisioning>, d: Decision, written: Account)
    requires ReceiptHolds(users, log, receipt) && d.targetId in users && users[d.targetId].role == USER
    ensures ReceiptHolds(users[d.targetId := written], log + [d], receipt)
  {
    if receipt.Some? { TrailGrows(log, d, receipt.value.targetId); }
  }

  lemma DecisionHolds(l: Ledger, actor: Account, target: Account, request: Request, t: Transition, now: Instant)
    requires LedgerHolds(l) && AdministratorNow(actor) && request.commandId !in l.db.decisions
    requires target.id in l.db.users && l.db.users[target.id] == target && target.role == USER
    requires Resolve(target, request.operation, request.requestedDepartment) == Change(t)
    requires target.accessVersion == request.expected < MAX_VERSION
    ensures LedgerHolds(Ledger(DecidedTables(l.db, actor, target, request, t, now).0,
      l.log + [DecisionFor(actor, target, request, t, now)]))
  {
    var d, written := DecisionFor(actor, target, request, t, now), Applied(target, UpdateData(t, now, actor.id));
    SoundDecision(actor, target, request, t, now);
    DecisionRecorded(l, d, written);
  }

  lemma DecisionRecorded(l: Ledger, d: Decision, written: Account)
    requires LedgerHolds(l) && d.commandId !in l.db.decisions && DecisionChecks(d)
    requires d.targetId in l.db.users && d.before == SnapshotOf(l.db.users[d.targetId]) && l.db.users[d.targetId].role == USER
    requires d.after == SnapshotOf(written) && written.role == USER && Decided(written.status)
    requires written.id == d.targetId && Consistent(written)
    ensures LedgerHolds(Ledger(
      l.db.(users := l.db.users[d.targetId := written], decisions := l.db.decisions[d.commandId := d]), l.log + [d]))
  {
    LogGrows(l.db.decisions, l.log, d);
    ReceiptKept(l.db.users, l.log, l.db.receipt, d, written);
    forall id: Id ensures TrailHolds(l.db.users[d.targetId := written], Trail(l.log + [d], id), id) {
      EveryTrailHolds(l, d, written, id);
    }
  }

  lemma CommitHolds(l: Ledger, actorId: Id, targetId: Id, request: Request, now: Instant)
    requires LedgerHolds(l)
    ensures LedgerHolds(Commit(l, actorId, targetId, request, now))
  {
    var users := l.db.users;
    if actorId in users && AdministratorNow(users[actorId]) && targetId in users && users[targetId].role == USER
      && request.commandId !in l.db.decisions
    {
      var actor, target := users[actorId], users[targetId];
      var r := Resolve(target, request.operation, request.requestedDepartment);
      DecideUnfolds(l.db, actor, target, request, now);
      if target.accessVersion == request.expected < MAX_VERSION && r.Change? {
        DecisionHolds(l, actor, target, request, r.transition, now);
      }
    }
  }

  /** A write to an account without decisions, which is not the bootstrapped one, disturbs no trail. */
  lemma UserWriteHolds(l: Ledger, id: Id, a: Account)
    requires LedgerHolds(l) && a.id == id && Consistent(a)
    requires Trail(l.log, id) == [] && (l.db.receipt.Some? ==> l.db.receipt.value.targetId != id)
    ensures LedgerHolds(WithUsers(l, l.db.users[id := a]))
  {
    forall x: Id ensures TrailHolds(l.db.users[id := a], Trail(l.log, x), x) {
      assert TrailHolds(l.db.users, Trail(l.log, x), x);
    }
  }

  lemma UndecidedHasNoTrail(l: Ledger, id: Id)
    requires LedgerHolds(l) && (id in l.db.users ==> !Decided(l.db.users[id].status))
    ensures Trail(l.log, id) == [] && (l.db.receipt.Some? ==> l.db.receipt.value.targetId != id)
  {
    assert TrailHolds(l.db.users, Trail(l.log, id), id);
  }

  lemma NominateHolds(l: Ledger, n: Nomination, now: Instant)
    requires LedgerHolds(l)
    ensures LedgerHolds(Next(l, Nominate(n, now)))
  {
    var users := l.db.users;
    if Evaluate(Found(users, n.userId), |Administrators(users)|, l.db.receipt.Some?, n) == ELIGIBLE {
      PromotionIsConsistent(users[n.userId], n);
      UndecidedHasNoTrail(l, n.userId);
      UserWriteHolds(l, n.userId, Promoted(users[n.userId]));
    }
  }

  lemma EditKeepsTrail(users: map<Id, Account>, trail: seq<Decision>, x: Id, id: Id, fullName: string, phone: Option<string>)
    requires TrailHolds(users, trail, x) && id in users
    ensures TrailHolds(users[id := users[id].(fullName := fullName, phone := phone)], trail, x)
  {
  }

  lemma EditHolds(l: Ledger, id: Id, fullName: string, phone: Option<string>)
    requires LedgerHolds(l)
    ensures LedgerHolds(Next(l, EditProfile(id, fullName, phone)))
  {
    if id in l.db.users {
      var users := l.db.users[id := l.db.users[id].(fullName := fullName, phone := phone)];
      forall x: Id ensures TrailHolds(users, Trail(l.log, x), x) {
        assert TrailHolds(l.db.users, Trail(l.log, x), x);
        EditKeepsTrail(l.db.users, Trail(l.log, x), x, id, fullName, phone);
      }
    }
  }

  lemma DiscardHolds(l: Ledger, id: Id)
    requires LedgerHolds(l)
    ensures LedgerHolds(Next(l, Discard(id)))
  {
    if Next(l, Discard(id)) != l {
      UndecidedHasNoTrail(l, id);
      forall x: Id ensures TrailHolds(l.db.users - {id}, Trail(l.log, x), x) {
        assert TrailHolds(l.db.users, Trail(l.log, x), x);
      }
    }
  }

  lemma VerifyHolds(l: Ledger, id: Id, now: Instant)
    requires LedgerHolds(l)
    ensures LedgerHolds(Next(l, Verify(id, now)))
  {
    var users := l.db.users;
    if VerifyAccount(users, id, now) != users {
      VerificationIsConsistent(users[id], now);
      UndecidedHasNoTrail(l, id);
      UserWriteHolds(l, id, Verified(users[id], now).value);
    } else {
      assert WithUsers(l, users) == l;
    }
  }

  lemma NextHolds(l: Ledger, e: Event)
    requires LedgerHolds(l)
    ensures LedgerHolds(Next(l, e))
  {
    match e
    case Ask(actorId, targetId, request, now) => CommitHolds(l, actorId, targetId, request, now);
    case Nominate(n, now) => NominateHolds(l, n, now);
    case Register(a) =>
      if NewAccount(a) && a.id !in l.db.users {
        UndecidedHasNoTrail(l, a.id);
        UserWriteHolds(l, a.id, a);
      }
    case Verify(id, now) => VerifyHolds(l, id, now);
    case Discard(id) => DiscardHolds(l, id);
    case EditProfile(id, fullName, phone) => EditHolds(l, id, fullName, phone);
  }

  /**
   Over every run: accounts stay consistent, decisions about each account form one contiguous chain that
   ends at its row, every decision passes its database constraints, and no account has both a bootstrap
   receipt and a decision.
   */
  lemma {:induction false} RunHolds(l: Ledger, events: seq<Event>)
    requires LedgerHolds(l)
    ensures LedgerHolds(Run(l, events))
  {
    if events != [] {
      RunHolds(l, events[..|events| - 1]);
      NextHolds(Run(l, events[..|events| - 1]), events[|events| - 1]);
    }
  }

  /** Accounts of any consistent kind, without decisions and without a receipt. */
  lemma InitialLedgerHolds(users: map<Id, Account>)
    requires UsersHold(users)
    ensures LedgerHolds(Ledger(StaffDb(users, map[], None), []))
  {
  }

  // --- Versions ---

  /** Everything about an account that decides what it may do. */
  datatype Authority = Authority(
    role: Role, status: Status, department: Option<Department>, approvedAt: Option<Instant>, approvedById: Option<Id>,
    verifiedAt: Option<Instant>)

  function AuthorityOf(a: Account): Authority {
    Authority(a.role, a.status, a.department, a.staffApprovedAt, a.staffApprovedById, a.emailVerifiedAt)
  }

  /** From a to b: the version grew by one if the authority changed, and stayed otherwise. */
  predicate VersionTells(a: Account, b: Account) {
    b.accessVersion == a.accessVersion + if AuthorityOf(a) == AuthorityOf(b) then 0 else 1
  }

  lemma DecisionRaisesVersion(actor: Account, target: Account, request: Request, t: Transition, now: Instant)
    requires Consistent(target) && Resolve(target, request.operation, request.requestedDepartment) == Change(t)
    ensures VersionTells(target, Applied(target, UpdateData(t, now, actor.id)))
  {
  }

  /** Each authority change raises the access version by exactly one, and nothing else touches it. */
  lemma AuthorityChangeRaisesVersion(l: Ledger, e: Event, u: Id)
    requires LedgerHolds(l) && u in l.db.users && u in Next(l, e).db.users
    ensures VersionTells(l.db.users[u], Next(l, e).db.users[u])
  {
    if e.Ask? { CommandRaisesVersion(l, e.actorId, e.targetId, e.request, e.now, u); }
  }

  lemma CommandRaisesVersion(l: Ledger, actorId: Id, targetId: Id, request: Request, now: Instant, u: Id)
    requires LedgerHolds(l) && u in l.db.users
    ensures
      var users := Command(l.db, actorId, targetId, request, now).0.users;
      u in users && VersionTells(l.db.users[u], users[u])
  {
    var users := l.db.users;
    if actorId in users && AdministratorNow(users[actorId]) && targetId in users && users[targetId].role == USER
      && request.commandId !in l.db.decisions
    {
      var r := Resolve(users[targetId], request.operation, request.requestedDepartment);
      DecideUnfolds(l.db, users[actorId], users[targetId], request, now);
      if r.Change? { DecisionRaisesVersion(users[actorId], users[targetId], request, r.transition, now); }
    }
  }

  /** Every id that was ever in the table: those at the start, and those registered since. */
  function Known(l: Ledger, events: seq<Event>): set<Id> {
    if events == [] then l.db.users.Keys
    else
      var last := events[|events| - 1];
      Known(l, events[..|events| - 1]) + if last.Register? then {last.account.id} else {}
  }

  /** Registration gives every account an id that was never used. */
  predicate RegistersNewIds(l: Ledger, events: seq<Event>) {
    events == [] ||
    var front, last := events[..|events| - 1], events[|events| - 1];
    RegistersNewIds(l, front) && (last.Register? ==> last.account.id !in Known(l, front))
  }

  lemma CommandKeepsKeys(l: Ledger, actorId: Id, targetId: Id, request: Request, now: Instant)
    requires LedgerHolds(l)
    ensures Command(l.db, actorId, targetId, request, now).0.users.Keys == l.db.users.Keys
  {
  }

  lemma OnlyRegistrationAdds(l: Ledger, e: Event, u: Id)
    requires LedgerHolds(l) && u !in l.db.users && u in Next(l, e).db.users
    ensures e.Register? && e.account.id == u
  {
    if e.Ask? { CommandKeepsKeys(l, e.actorId, e.targetId, e.request, e.now); }
  }

  lemma {:induction false} KnownGrows(l: Ledger, events: seq<Event>)
    ensures l.db.users.Keys <= Known(l, events)
  {
    if events != [] { KnownGrows(l, events[..|events| - 1]); }
  }

  predicate Changed(a: map<Id, Account>, b: map<Id, Account>, u: Id) {
    u in a && u in b && AuthorityOf(a[u]) != AuthorityOf(b[u])
  }

  /** How many steps of the run changed the authority of the account. */
  function Changes(l: Ledger, events: seq<Event>, u: Id): nat {
    if events == [] then 0
    else
      var front := events[..|events| - 1];
      Changes(l, front, u) + if Changed(Run(l, front).db.users, Run(l, events).db.users, u) then 1 else 0
  }

  /** Over every run the version of an account grows by exactly the number of its authority changes, so it never falls. */
  lemma {:induction false} VersionCountsChanges(l: Ledger, events: seq<Event>, u: Id)
    requires LedgerHolds(l) && RegistersNewIds(l, events) && u in l.db.users && u in Run(l, events).db.users
    ensures Run(l, events).db.users[u].accessVersion == l.db.users[u].accessVersion + Changes(l, events, u)
    ensures Changes(l, events, u) == 0 ==> AuthorityOf(Run(l, events).db.users[u]) == AuthorityOf(l.db.users[u])
  {
    if events != [] {
      var front, last := events[..|events| - 1], events[|events| - 1];
      RunHolds(l, front);
      StillThere(l, front, last, u);
      VersionCountsChanges(l, front, u);
      AuthorityChangeRaisesVersion(Run(l, front), last, u);
    }
  }

  lemma StillThere(l: Ledger, front: seq<Event>, last: Event, u: Id)
    requires LedgerHolds(l) && u in l.db.users && u in Next(Run(l, front), last).db.users
    requires last.Register? ==> last.account.id !in Known(l, front)
    ensures u in Run(l, front).db.users
  {
    RunHolds(l, front);
    KnownGrows(l, front);
    if u !in Run(l, front).db.users { OnlyRegistrationAdds(Run(l, front), last, u); }
  }

  // --- Receipts and replay ---

  lemma {:induction false} TrailMembers(log: seq<Decision>, id: Id, d: Decision)
    ensures d in Trail(log, id) <==> d in log && d.targetId == id
  {
    if log != [] {
      TrailMembers(log[..|log| - 1], id, d);
      assert log == log[..|log| - 1] + [log[|log| - 1]];
    }
  }

  lemma {:induction false} VersionsCount(trail: seq<Decision>, i: nat)
    requires Contiguous(trail) && AllChecked(trail) && i < |trail|
    ensures trail[i].after.version == trail[0].before.version + i + 1
  {
    assert trail[i] in trail;
    if i > 0 { VersionsCount(trail, i - 1); }
  }

  /** Each authority change since the first decision raised the access version by exactly one. */
  lemma VersionCountsDecisions(l: Ledger, id: Id)
    requires LedgerHolds(l) && Trail(l.log, id) != []
    ensures id in l.db.users
    ensures l.db.users[id].accessVersion == Trail(l.log, id)[0].before.version + |Trail(l.log, id)| <= MAX_VERSION
  {
    var trail := Trail(l.log, id);
    assert TrailHolds(l.db.users, trail, id);
    forall d | d in trail ensures DecisionChecks(d) { TrailMembers(l.log, id, d); }
    VersionsCount(trail, |trail| - 1);
  }

  /** A receipt matches its account on every compared field exactly when the versions are equal. */
  lemma ReceiptMatchesByVersion(l: Ledger, d: Decision)
    requires LedgerHolds(l) && d in l.log
    ensures d.targetId in l.db.users && l.db.users[d.targetId].role == USER
    ensures SnapshotOf(l.db.users[d.targetId]) == d.after <==> l.db.users[d.targetId].accessVersion == d.after.version
    ensures l.db.users[d.targetId].accessVersion == d.after.version <==>
      Trail(l.log, d.targetId) != [] && Trail(l.log, d.targetId)[|Trail(l.log, d.targetId)| - 1] == d
  {
    var trail := Trail(l.log, d.targetId);
    assert TrailHolds(l.db.users, trail, d.targetId);
    forall x | x in trail ensures DecisionChecks(x) { TrailMembers(l.log, d.targetId, x); }
    TrailMembers(l.log, d.targetId, d);
    var i :| 0 <= i < |trail| && trail[i] == d;
    VersionsCount(trail, i);
    VersionsCount(trail, |trail| - 1);
  }

  predicate SameBinding(d: Decision, actorId: Id, targetId: Id, request: Request) {
    && d.commandId == request.commandId && d.actorId == actorId && d.targetId == targetId
    && d.operation == request.operation && d.requestedDepartment == request.requestedDepartment
    && d.before.version == request.expected
  }

  predicate StillCurrent(users: map<Id, Account>, d: Decision) {
    d.targetId in users && users[d.targetId].accessVersion == d.after.version
  }

  /** What the response schema asks of a staff answer. */
  predicate DataAccepted(o: Outcome) {
    match o
    case Denied(_) => true
    case Answered(staff, decision, replayed) =>
      && Consistent(staff) && (replayed ==> decision != None)
      && (decision != None ==> decision.value.after == SnapshotOf(staff) && decision.value.actorRole == ADMIN)
  }

  /**
   A retained command never decides again. Sent again by an administrator it is answered from its receipt exactly
   when nothing has been decided about the account since; with any other content it is a conflict.
   */
  lemma ReplayDecidesNothing(l: Ledger, actorId: Id, targetId: Id, request: Request, now: Instant)
    requires LedgerHolds(l) && request.commandId in l.db.decisions
    requires actorId in l.db.users && AdministratorNow(l.db.users[actorId])
    ensures
      var d := l.db.decisions[request.commandId];
      var (db, outcome) := Command(l.db, actorId, targetId, request, now);
      && db == l.db && Commit(l, actorId, targetId, request, now) == l && DataAccepted(outcome)
      && (outcome.Answered? <==> SameBinding(d, actorId, targetId, request) && StillCurrent(l.db.users, d))
      && (outcome.Answered? ==> outcome == Answered(l.db.users[d.targetId], Some(d), true))
  {
    var d := l.db.decisions[request.commandId];
    assert d in l.log;
    ReceiptMatchesByVersion(l, d);
  }

  /** Every answer passes the response schema, and a new decision is about the row as it was written. */
  lemma AnswersAreAccepted(l: Ledger, actorId: Id, targetId: Id, request: Request, now: Instant)
    requires LedgerHolds(l)
    ensures DataAccepted(Command(l.db, actorId, targetId, request, now).1)
  {
    var users := l.db.users;
    if actorId in users && AdministratorNow(users[actorId]) && targetId in users && users[targetId].role == USER {
      if request.commandId in l.db.decisions {
        ReplayDecidesNothing(l, actorId, targetId, request, now);
      } else {
        DecideUnfolds(l.db, users[actorId], users[targetId], request, now);
        var r := Resolve(users[targetId], request.operation, request.requestedDepartment);
        if r.Change? && users[targetId].accessVersion == request.expected < MAX_VERSION {
          SoundDecision(users[actorId], users[targetId], request, r.transition, now);
        }
      }
    }
  }

  predicate GivesApproval(a: Action) {
    a == DecideApprove || a == DecideReconsider || a == DecidePrepareApproval
  }

  /** A decision tells who decided what about whom and when, and both snapshots are the rows themselves. */
  predicate DecisionTells(before: StaffDb, after: StaffDb, d: Decision, actorId: Id, targetId: Id, request: Request, now: Instant) {
    && actorId in before.users && targetId in before.users && targetId in after.users
    && SameBinding(d, actorId, targetId, request) && d.occurredAt == now
    && d.actorFullName == before.users[actorId].fullName && d.targetFullName == before.users[targetId].fullName
    && d.targetEmail == before.users[targetId].email
    && d.before == SnapshotOf(before.users[targetId]) && d.after == SnapshotOf(after.users[targetId])
    && (GivesApproval(d.action) ==> d.after.approvedAt == Some(now) && d.after.approvedById == Some(actorId))
    && after == before.(users := before.users[targetId := after.users[targetId]],
         decisions := before.decisions[request.commandId := d])
  }

  /** An answer with a new decision is true of the tables; an answer or a refusal without one leaves them alone. */
  lemma NewDecisionTellsTheTruth(l: Ledger, actorId: Id, targetId: Id, request: Request, now: Instant)
    requires LedgerHolds(l)
    ensures
      var (db, o) := Command(l.db, actorId, targetId, request, now);
      if o.Answered? && o.decision.Some? && !o.replayed
      then DecisionTells(l.db, db, o.decision.value, actorId, targetId, request, now) && o.staff == db.users[targetId]
      else db == l.db
  {
    var users := l.db.users;
    if actorId in users && AdministratorNow(users[actorId]) && targetId in users && users[targetId].role == USER
      && request.commandId !in l.db.decisions
    {
      var r := Resolve(users[targetId], request.operation, request.requestedDepartment);
      DecideUnfolds(l.db, users[actorId], users[targetId], request, now);
      if r.Change? && users[targetId].accessVersion == request.expected < MAX_VERSION {
        SoundDecision(users[actorId], users[targetId], request, r.transition, now);
      }
    }
  }

  // --- The bootstrap happens once ---

  function ReceiptTargets(receipt: Option<Provisioning>): set<Id> {
    match receipt case None => {} case Some(p) => {p.targetId}
  }

  /** The administrators are exactly the accounts with a bootstrap receipt. */
  predicate OneFounder(db: StaffDb) {
    Administrators(db.users) == ReceiptTargets(db.receipt)
  }

  lemma CommandKeepsRoles(l: Ledger, actorId: Id, targetId: Id, request: Request, now: Instant)
    requires LedgerHolds(l)
    ensures Administrators(Command(l.db, actorId, targetId, request, now).0.users) == Administrators(l.db.users)
    ensures Command(l.db, actorId, targetId, request, now).0.receipt == l.db.receipt
  {
  }

  lemma RoleKeepersKeepAdministrators(users: map<Id, Account>, after: map<Id, Account>)
    requires forall u | u in users && users[u].role == ADMIN :: u in after && after[u].role == ADMIN
    requires forall u | u in after && after[u].role == ADMIN :: u in users && users[u].role == ADMIN
    ensures Administrators(after) == Administrators(users)
  {
  }

  lemma NominateOneFounder(l: Ledger, n: Nomination, now: Instant)
    requires LedgerHolds(l) && OneFounder(l.db)
    ensures OneFounder(Bootstrap(l.db, n, now).0)
  {
    if Bootstrap(l.db, n, now).1 == ELIGIBLE {
      assert Administrators(l.db.users) == {};
      assert Administrators(l.db.users[n.userId := Promoted(l.db.users[n.userId])]) == {n.userId};
    }
  }

  /** Only the bootstrap makes administrators, and nothing unmakes them. */
  lemma OneFounderNext(l: Ledger, e: Event)
    requires LedgerHolds(l) && OneFounder(l.db)
    ensures OneFounder(Next(l, e).db)
  {
    match e
    case Ask(actorId, targetId, request, now) => CommandKeepsRoles(l, actorId, targetId, request, now);
    case Nominate(n, now) => NominateOneFounder(l, n, now);
    case _ => OthersKeepAdministrators(l, e);
  }

  lemma OthersKeepAdministrators(l: Ledger, e: Event)
    requires LedgerHolds(l) && OneFounder(l.db) && !e.Ask? && !e.Nominate?
    ensures Administrators(Next(l, e).db.users) == Administrators(l.db.users) && Next(l, e).db.receipt == l.db.receipt
  {
    var users, after := l.db.users, Next(l, e).db.users;
    if e.Discard? && e.id in users && users[e.id].role == ADMIN {
      assert e.id in Administrators(users);
    }
    RoleKeepersKeepAdministrators(users, after);
  }

  lemma {:induction false} ReceiptLasts(l: Ledger, events: seq<Event>)
    requires l.db.receipt.Some?
    ensures Run(l, events).db.receipt == l.db.receipt
  {
    if events != [] { ReceiptLasts(l, events[..|events| - 1]); }
  }

  /**
   Bootstrap happens once: from a state without administrators and receipt, after every run there are exactly
   as many administrators as receipts, and once there is a receipt no nomination succeeds any more.
   */
  lemma {:induction false} BootstrapHappensOnce(l: Ledger, events: seq<Event>, n: Nomination, now: Instant)
    requires LedgerHolds(l) && Administrators(l.db.users) == {} && l.db.receipt == None
    ensures
      var db := Run(l, events).db;
      && OneFounder(db) && |Administrators(db.users)| == |ReceiptTargets(db.receipt)| <= 1
      && (db.receipt.Some? ==> Bootstrap(db, n, now) == (db, INITIAL_ADMIN_EXISTS))
  {
    if events != [] {
      var front := events[..|events| - 1];
      BootstrapHappensOnce(l, front, n, now);
      RunHolds(l, front);
      OneFounderNext(Run(l, front), events[|events| - 1]);
    }
  }
}

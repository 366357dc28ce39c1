/**
 Staff commands, bootstrap attempts and verifications at the same time, step by step under their row locks
 and the bootstrap lock. Every interleaving is a serial run, so what StaffHistory proves holds for all of them.
 */
module StaffConcurrency {
  import opened Foundations
  import opened Accounts
  import opened StaffAuthority
  import opened StaffHistory
  import LockOrder

  type TxId = nat

  datatype Work =
    | StaffWork(actorId: Id, targetId: Id, request: Request, now: Instant)
    | BootWork(nomination: Nomination, now: Instant)
    | VerifyWork(id: Id, now: Instant)

  /** Taking locks in script order, then one read, then the commit. */
  datatype Pc =
    | Locking(held: nat)
    | Looked(actor: Account, target: Account)
    | Gated(candidate: Account)
    | Loaded(account: Account)

  datatype Tx = Tx(work: Work, retried: bool, pc: Pc)

  datatype Answer = StaffAnswer(outcome: Outcome) | BootAnswer(reason: Reason) | VerifyAnswer(done: bool) | GaveUp

  datatype System = System(ledger: Ledger, txs: map<TxId, Tx>, answers: seq<Answer>)

  datatype Event =
    | Begin(id: TxId, work: Work)
    | Advance(id: TxId)
    | Abort(id: TxId)
    | Other(event: StaffHistory.Event)

  function ScriptFor(w: Work): seq<LockOrder.Claim> {
    match w
    case StaffWork(actorId, targetId, _, _) => LockOrder.ScriptOf(LockOrder.StaffCommand(actorId, targetId))
    case BootWork(n, _) => LockOrder.ScriptOf(LockOrder.Bootstrap(n.userId))
    case VerifyWork(id, _) => LockOrder.ScriptOf(LockOrder.AccountWork(id, LockOrder.Exclusive))
  }

  predicate HoldsLock(t: Tx, key: LockOrder.LockKey) {
    var script := ScriptFor(t.work);
    exists i :: 0 <= i < |script| && script[i].key == key && (t.pc.Locking? ==> i < t.pc.held)
  }

  predicate Free(txs: map<TxId, Tx>, id: TxId, key: LockOrder.LockKey) {
    forall u | u in txs && u != id :: !HoldsLock(txs[u], key)
  }

  // --- One step of one transaction ---

  datatype Move = Wait | Go(pc: Pc) | Clash | Finish(db: StaffDb, answer: Answer)

  function MoveOf(db: StaffDb, txs: map<TxId, Tx>, id: TxId): Move
    requires id in txs
  {
    var t := txs[id];
    match t.pc
    case Locking(k) =>
      var script := ScriptFor(t.work);
      if k < |script| then (if Free(txs, id, script[k].key) then Go(Locking(k + 1)) else Wait)
      else Look(db, t.work)
    case Looked(actor, target) =>
      if !t.work.StaffWork? then Wait
      else if t.work.request.commandId in db.decisions then Clash
      else Ended(Decide(db, actor, target, t.work.request, t.work.now))
    case Gated(c) =>
      if !t.work.BootWork? then Wait
      else Finish(db.(users := db.users[c.id := Promoted(c)],
        receipt := Some(Provisioning(c.id, t.work.now, c.accessVersion, c.accessVersion + 1))), BootAnswer(ELIGIBLE))
    case Loaded(a) =>
      if !t.work.VerifyWork? then Wait
      else if a.accessVersion >= MAX_VERSION then Finish(db, VerifyAnswer(false))
      else if Verified(a, t.work.now) == None then Finish(db, VerifyAnswer(false))
      else Finish(db.(users := db.users[a.id := Verified(a, t.work.now).value]), VerifyAnswer(true))
  }

  function Ended(result: (StaffDb, Outcome)): Move {
    Finish(result.0, StaffAnswer(result.1))
  }

  /** The reads under the locks. */
  function Look(db: StaffDb, w: Work): Move {
    match w
    case StaffWork(actorId, targetId, request, now) =>
      if actorId !in db.users then Ended((db, Denied(Unauthorized)))
      else if RequireAdministrator(db.users[actorId]).Some? then Ended((db, Denied(RequireAdministrator(db.users[actorId]).value)))
      else if targetId !in db.users then Ended((db, Denied(StaffNotFound)))
      else if db.users[targetId].role == ADMIN then Ended((db, Denied(AdminTarget)))
      else if request.commandId in db.decisions then
        Ended((db, Replay(db.users[targetId], db.decisions[request.commandId], actorId, targetId, request)))
      else Go(Looked(db.users[actorId], db.users[targetId]))
    case BootWork(n, now) =>
      var reason := Evaluate(Found(db.users, n.userId), |Administrators(db.users)|, db.receipt.Some?, n);
      if reason != ELIGIBLE then Finish(db, BootAnswer(reason)) else Go(Gated(db.users[n.userId]))
    case VerifyWork(id, now) =>
      if id !in db.users then Finish(db, VerifyAnswer(false)) else Go(Loaded(db.users[id]))
  }

  // --- One step of the system ---

  /** The account that another event writes, which must not be locked; a fresh account is not known to anybody yet. */
  function WrittenBy(e: StaffHistory.Event): Option<Id> {
    match e
    case Register(a) => Some(a.id)
    case Discard(id) => Some(id)
    case EditProfile(id, _, _) => Some(id)
    case _ => None
  }

  predicate Unlocked(txs: map<TxId, Tx>, id: Id) {
    forall u | u in txs :: !HoldsLock(txs[u], LockOrder.AccountRow(id))
  }

  function Recorded(l: Ledger, db: StaffDb, w: Work): Ledger {
    Ledger(db, if w.StaffWork? && w.request.commandId in db.decisions && w.request.commandId !in l.db.decisions
      then l.log + [db.decisions[w.request.commandId]] else l.log)
  }

  /** A command-id conflict or an aborted transaction: staff commands have one fresh attempt, the others none. */
  function Restarted(s: System, id: TxId): System
    requires id in s.txs
  {
    if s.txs[id].work.StaffWork? && !s.txs[id].retried then s.(txs := s.txs[id := Tx(s.txs[id].work, true, Locking(0))])
    else s.(txs := s.txs - {id}, answers := s.answers + [GaveUp])
  }

  function Next(s: System, e: Event): System {
    match e
    case Begin(id, work) => if id in s.txs then s else s.(txs := s.txs[id := Tx(work, false, Locking(0))])
    case Advance(id) =>
      if id !in s.txs then s
      else (match MoveOf(s.ledger.db, s.txs, id)
        case Wait => s
        case Go(pc) => s.(txs := s.txs[id := s.txs[id].(pc := pc)])
        case Clash => Restarted(s, id)
        case Finish(db, answer) =>
          System(Recorded(s.ledger, db, s.txs[id].work), s.txs - {id}, s.answers + [answer]))
    case Abort(id) => if id in s.txs then Restarted(s, id) else s
    case Other(event) =>
      if WrittenBy(event) == None || !Unlocked(s.txs, WrittenBy(event).value) then s
      else s.(ledger := StaffHistory.Next(s.ledger, event))
  }

  function Run(s: System, events: seq<Event>): System {
    if events == [] then s else Next(Run(s, events[..|events| - 1]), events[|events| - 1])
  }

  // --- What a transaction has read stays true ---

  predicate At(users: map<Id, Account>, id: Id, a: Account) {
    id in users && users[id] == a && a.id == id
  }

  ghost predicate ReadsHold(t: Tx, db: StaffDb) {
    match (t.pc, t.work)
    case (Locking(k), w) => k <= |ScriptFor(w)|
    case (Looked(actor, target), StaffWork(actorId, targetId, _, _)) =>
      At(db.users, actorId, actor) && AdministratorNow(actor) && At(db.users, targetId, target) && target.role == USER
    case (Gated(c), BootWork(n, _)) =>
      At(db.users, n.userId, c) && Administrators(db.users) == {} && db.receipt == None
      && Evaluate(Some(c), 0, false, n) == ELIGIBLE
    case (Loaded(a), VerifyWork(id, _)) => At(db.users, id, a)
    case _ => false
  }

  predicate Apart(t: Tx, u: Tx) {
    forall i | 0 <= i < |ScriptFor(t.work)| && (t.pc.Locking? ==> i < t.pc.held) :: !HoldsLock(u, ScriptFor(t.work)[i].key)
  }

  ghost predicate TxsHold(txs: map<TxId, Tx>, db: StaffDb) {
    && (forall id | id in txs :: ReadsHold(txs[id], db))
    && (forall id, u | id in txs && u in txs && id != u :: Apart(txs[id], txs[u]))
  }

  ghost predicate Holds(s: System) {
    LedgerHolds(s.ledger) && TxsHold(s.txs, s.ledger.db)
  }

  // --- The serial event of a step ---

  function SerialOf(w: Work): StaffHistory.Event {
    match w
    case StaffWork(actorId, targetId, request, now) => Ask(actorId, targetId, request, now)
    case BootWork(n, now) => Nominate(n, now)
    case VerifyWork(id, now) => Verify(id, now)
  }

  /** What the work answers when it runs alone. */
  function SerialAnswer(db: StaffDb, w: Work): Answer {
    match w
    case StaffWork(actorId, targetId, request, now) => StaffAnswer(Command(db, actorId, targetId, request, now).1)
    case BootWork(n, now) => BootAnswer(StaffAuthority.Bootstrap(db, n, now).1)
    case VerifyWork(id, now) =>
      VerifyAnswer(id in db.users && Verified(db.users[id], now).Some? && db.users[id].accessVersion < MAX_VERSION)
  }

  /** A transaction that ends does at its last step what it would do alone at that moment. */
  lemma FinishIsSerial(l: Ledger, txs: map<TxId, Tx>, id: TxId)
    requires id in txs && UsersHold(l.db.users) && ReadsHold(txs[id], l.db) && MoveOf(l.db, txs, id).Finish?
    ensures
      var m, w := MoveOf(l.db, txs, id), txs[id].work;
      Recorded(l, m.db, w) == StaffHistory.Next(l, SerialOf(w)) && m.answer == SerialAnswer(l.db, w)
  {
  }

  // --- Locks keep the reads of the others ---

  function RowsOf(w: Work): set<Id> {
    match w
    case StaffWork(actorId, targetId, _, _) => {actorId, targetId}
    case BootWork(n, _) => {n.userId}
    case VerifyWork(id, _) => {id}
  }

  function WrittenRow(w: Work): Id {
    match w
    case StaffWork(_, targetId, _, _) => targetId
    case BootWork(n, _) => n.userId
    case VerifyWork(id, _) => id
  }

  predicate FullyLocked(t: Tx) {
    t.pc.Locking? ==> t.pc.held >= |ScriptFor(t.work)|
  }

  lemma ClaimOf(ids: seq<Id>, id: Id) returns (i: nat)
    requires id in ids
    ensures i < |LockOrder.AccountClaims(ids, LockOrder.Exclusive)|
    ensures LockOrder.AccountClaims(ids, LockOrder.Exclusive)[i].key == LockOrder.AccountRow(id)
  {
    var sorted := LockOrder.SortedUnique(ids);
    i :| 0 <= i < |sorted| && sorted[i] == id;
  }

  lemma LockedRowsAreHeld(t: Tx, id: Id)
    requires FullyLocked(t) && id in RowsOf(t.work)
    ensures HoldsLock(t, LockOrder.AccountRow(id))
  {
    var script := ScriptFor(t.work);
    match t.work
    case StaffWork(actorId, targetId, _, _) => var i := ClaimOf([actorId, targetId], id);
    case BootWork(n, _) =>
      var i := ClaimOf([id], id);
      assert script[i + 1].key == LockOrder.AccountRow(id);
    case VerifyWork(_, _) => var i := ClaimOf([id], id);
  }

  lemma BootHoldsItsLock(t: Tx)
    requires FullyLocked(t) && t.work.BootWork?
    ensures HoldsLock(t, LockOrder.BootstrapLock)
  {
    assert ScriptFor(t.work)[0].key == LockOrder.BootstrapLock;
  }

  /** Of two transactions that have all their locks, neither writes a row that the other has read, and at most one bootstraps. */
  lemma LockedApart(t: Tx, u: Tx)
    requires FullyLocked(t) && FullyLocked(u) && Apart(t, u)
    ensures WrittenRow(t.work) !in RowsOf(u.work) && !(t.work.BootWork? && u.work.BootWork?)
  {
    LockedRowsAreHeld(t, WrittenRow(t.work));
    if WrittenRow(t.work) in RowsOf(u.work) { LockedRowsAreHeld(u, WrittenRow(t.work)); }
    if t.work.BootWork? { BootHoldsItsLock(t); }
    if u.work.BootWork? { BootHoldsItsLock(u); }
  }

  /** Only the row x differs. */
  ghost predicate RowFrame(a: map<Id, Account>, b: map<Id, Account>, x: Id) {
    forall u | u != x :: (u in a <==> u in b) && (u in a ==> b[u] == a[u])
  }

  /** No administrator appears, and the receipt stays; a pending account may at most be discarded. */
  predicate RolesStay(a: StaffDb, b: StaffDb) {
    (Administrators(a.users) == {} ==> Administrators(b.users) == {}) && a.receipt == b.receipt
  }

  lemma ReadsLast(u: Tx, a: StaffDb, b: StaffDb, x: Id)
    requires ReadsHold(u, a) && RowFrame(a.users, b.users, x)
    requires !u.pc.Locking? ==> x !in RowsOf(u.work)
    requires u.pc.Gated? ==> RolesStay(a, b)
    ensures ReadsHold(u, b)
  {
  }

  lemma CommandFrames(l: Ledger, actorId: Id, targetId: Id, request: Request, now: Instant)
    requires LedgerHolds(l)
    ensures RowFrame(l.db.users, Command(l.db, actorId, targetId, request, now).0.users, targetId)
  {
  }

  lemma FinishedIsLocked(l: Ledger, txs: map<TxId, Tx>, id: TxId)
    requires id in txs && ReadsHold(txs[id], l.db) && MoveOf(l.db, txs, id).Finish?
    ensures FullyLocked(txs[id])
  {
  }

  lemma FinishFrames(l: Ledger, txs: map<TxId, Tx>, id: TxId)
    requires id in txs && LedgerHolds(l) && ReadsHold(txs[id], l.db) && MoveOf(l.db, txs, id).Finish?
    ensures
      var m, w := MoveOf(l.db, txs, id), txs[id].work;
      RowFrame(l.db.users, m.db.users, WrittenRow(w)) && (!w.BootWork? ==> RolesStay(l.db, m.db))
  {
    var m := MoveOf(l.db, txs, id);
    FinishIsSerial(l, txs, id);
    match txs[id].work
    case StaffWork(actorId, targetId, request, now) =>
      assert m.db == Command(l.db, actorId, targetId, request, now).0;
      CommandKeepsRoles(l, actorId, targetId, request, now);
      CommandFrames(l, actorId, targetId, request, now);
    case VerifyWork(v, now) => VerifyKeepsRoles(l.db, v, now);
    case BootWork(n, now) => assert m.db == StaffAuthority.Bootstrap(l.db, n, now).0;
  }

  lemma VerifyKeepsRoles(db: StaffDb, id: Id, now: Instant)
    ensures Administrators(VerifyAccount(db.users, id, now)) == Administrators(db.users)
  {
  }

  lemma FinishKeepsTxs(l: Ledger, txs: map<TxId, Tx>, id: TxId)
    requires id in txs && LedgerHolds(l) && TxsHold(txs, l.db) && MoveOf(l.db, txs, id).Finish?
    ensures TxsHold(txs - {id}, MoveOf(l.db, txs, id).db)
  {
    var m, t := MoveOf(l.db, txs, id), txs[id];
    FinishFrames(l, txs, id);
    FinishedIsLocked(l, txs, id);
    forall u | u in txs - {id} ensures ReadsHold(txs[u], m.db) {
      if !txs[u].pc.Locking? { LockedApart(t, txs[u]); }
      ReadsLast(txs[u], l.db, m.db, WrittenRow(t.work));
    }
  }

  lemma GoKeepsTxs(l: Ledger, txs: map<TxId, Tx>, id: TxId)
    requires id in txs && LedgerHolds(l) && TxsHold(txs, l.db) && MoveOf(l.db, txs, id).Go?
    ensures TxsHold(txs[id := txs[id].(pc := MoveOf(l.db, txs, id).pc)], l.db)
  {
    var moved := txs[id].(pc := MoveOf(l.db, txs, id).pc);
    forall u | u in txs && u != id ensures Apart(moved, txs[u]) && Apart(txs[u], moved) {
      GoKeepsApart(txs, id, moved, txs[u]);
    }
    LookReads(l, txs[id]);
  }

  lemma LookReads(l: Ledger, t: Tx)
    requires LedgerHolds(l)
    ensures Look(l.db, t.work).Go? ==> ReadsHold(t.(pc := Look(l.db, t.work).pc), l.db)
  {
  }

  lemma GoKeepsApart(txs: map<TxId, Tx>, id: TxId, moved: Tx, u: Tx)
    requires id in txs && Apart(txs[id], u) && Apart(u, txs[id]) && moved.work == txs[id].work
    requires
      var script := ScriptFor(moved.work);
      if txs[id].pc.Locking? && txs[id].pc.held < |script|
      then moved.pc == Locking(txs[id].pc.held + 1) && !HoldsLock(u, script[txs[id].pc.held].key)
      else !moved.pc.Locking?
    ensures Apart(moved, u) && Apart(u, moved)
  {
    forall i | 0 <= i < |ScriptFor(u.work)| && (u.pc.Locking? ==> i < u.pc.held) ensures !HoldsLock(moved, ScriptFor(u.work)[i].key) {
      assert !HoldsLock(txs[id], ScriptFor(u.work)[i].key);
      assert HoldsLock(u, ScriptFor(u.work)[i].key);
    }
  }

  // --- Every step, every run ---

  lemma OtherEventKeepsTxs(l: Ledger, txs: map<TxId, Tx>, e: StaffHistory.Event)
    requires LedgerHolds(l) && TxsHold(txs, l.db)
    requires WrittenBy(e).Some? && Unlocked(txs, WrittenBy(e).value)
    requires RolesStay(l.db, StaffHistory.Next(l, e).db)
    ensures TxsHold(txs, StaffHistory.Next(l, e).db)
  {
    var x, after := WrittenBy(e).value, StaffHistory.Next(l, e).db;
    forall u | u in txs ensures ReadsHold(txs[u], after) {
      if !txs[u].pc.Locking? && x in RowsOf(txs[u].work) { LockedRowsAreHeld(txs[u], x); }
      ReadsLast(txs[u], l.db, after, x);
    }
  }

  lemma OtherEventsKeepRoles(l: Ledger, e: StaffHistory.Event)
    requires WrittenBy(e).Some?
    ensures RolesStay(l.db, StaffHistory.Next(l, e).db)
  {
    var users, after := l.db.users, StaffHistory.Next(l, e).db.users;
    forall u | u in Administrators(after) ensures u in Administrators(users) {}
  }

  lemma RestartHolds(s: System, id: TxId)
    requires Holds(s) && id in s.txs
    ensures Holds(Restarted(s, id)) && Restarted(s, id).ledger == s.ledger
  {
  }

  /** The serial run that one step amounts to: one event or none. */
  function SerialEvent(s: System, e: Event): seq<StaffHistory.Event> {
    match e
    case Advance(id) => if id in s.txs && MoveOf(s.ledger.db, s.txs, id).Finish? then [SerialOf(s.txs[id].work)] else []
    case Other(event) => if WrittenBy(event).Some? && Unlocked(s.txs, WrittenBy(event).value) then [event] else []
    case _ => []
  }

  function Replayed(l: Ledger, events: seq<StaffHistory.Event>): Ledger {
    StaffHistory.Run(l, events)
  }

  lemma RunOfAtMostOne(l: Ledger, events: seq<StaffHistory.Event>)
    requires |events| <= 1
    ensures Replayed(l, events) == if events == [] then l else StaffHistory.Next(l, events[0])
  {
    if events != [] { assert events[..0] == [] && StaffHistory.Run(l, events[..0]) == l; }
  }

  lemma StepHolds(s: System, e: Event)
    requires Holds(s)
    ensures Holds(Next(s, e)) && Next(s, e).ledger == Replayed(s.ledger, SerialEvent(s, e))
  {
    RunOfAtMostOne(s.ledger, SerialEvent(s, e));
    match e
    case Begin(id, work) =>
    case Abort(id) => if id in s.txs { RestartHolds(s, id); }
    case Other(event) =>
      if WrittenBy(event).Some? && Unlocked(s.txs, WrittenBy(event).value) {
        OtherEventsKeepRoles(s.ledger, event);
        OtherEventKeepsTxs(s.ledger, s.txs, event);
        NextHolds(s.ledger, event);
      }
    case Advance(id) => if id in s.txs { AdvanceHolds(s, id); }
  }

  lemma AdvanceHolds(s: System, id: TxId)
    requires Holds(s) && id in s.txs
    ensures Holds(Next(s, Advance(id)))
    ensures Next(s, Advance(id)).ledger ==
      if MoveOf(s.ledger.db, s.txs, id).Finish? then StaffHistory.Next(s.ledger, SerialOf(s.txs[id].work)) else s.ledger
  {
    match MoveOf(s.ledger.db, s.txs, id)
    case Wait =>
    case Go(pc) => GoKeepsTxs(s.ledger, s.txs, id);
    case Clash => RestartHolds(s, id);
    case Finish(db, answer) =>
      FinishKeepsTxs(s.ledger, s.txs, id);
      FinishIsSerial(s.ledger, s.txs, id);
      NextHolds(s.ledger, SerialOf(s.txs[id].work));
  }

  function SerialRun(s: System, events: seq<Event>): seq<StaffHistory.Event> {
    if events == [] then []
    else
      var front := events[..|events| - 1];
      SerialRun(s, front) + SerialEvent(Run(s, front), events[|events| - 1])
  }

  lemma {:induction false} RunsJoin(l: Ledger, a: seq<StaffHistory.Event>, b: seq<StaffHistory.Event>)
    ensures Replayed(l, a + b) == Replayed(Replayed(l, a), b)
  {
    if b == [] {
      assert a + b == a;
    } else {
      RunsJoin(l, a, b[..|b| - 1]);
      assert (a + b)[..|a + b| - 1] == a + b[..|b| - 1];
    }
  }

  /** Every interleaving of staff commands, bootstrap attempts, verifications and other account writes is a serial run. */
  lemma {:induction false} RunIsSerial(s: System, events: seq<Event>)
    requires Holds(s)
    ensures Holds(Run(s, events)) && Run(s, events).ledger == Replayed(s.ledger, SerialRun(s, events))
  {
    if events != [] {
      var front, last := events[..|events| - 1], events[|events| - 1];
      RunIsSerial(s, front);
      StepHolds(Run(s, front), last);
      RunsJoin(s.ledger, SerialRun(s, front), SerialEvent(Run(s, front), last));
    }
  }

  function Promotions(answers: seq<Answer>): nat {
    if answers == [] then 0
    else Promotions(answers[..|answers| - 1]) + if answers[|answers| - 1] == BootAnswer(ELIGIBLE) then 1 else 0
  }

  predicate PromotionsCounted(s: System) {
    Promotions(s.answers) == |ReceiptTargets(s.ledger.db.receipt)|
  }

  lemma PromotionsGrow(answers: seq<Answer>, a: Answer)
    ensures Promotions(answers + [a]) == Promotions(answers) + if a == BootAnswer(ELIGIBLE) then 1 else 0
  {
    assert (answers + [a])[..|answers|] == answers;
  }

  /** A successful bootstrap makes the receipt; nothing else does. */
  lemma PromotionMakesReceipt(l: Ledger, w: Work)
    requires LedgerHolds(l)
    ensures
      var after := StaffHistory.Next(l, SerialOf(w)).db.receipt;
      if SerialAnswer(l.db, w) == BootAnswer(ELIGIBLE) then l.db.receipt == None && after.Some? else after == l.db.receipt
  {
    if w.StaffWork? { CommandKeepsRoles(l, w.actorId, w.targetId, w.request, w.now); }
  }

  lemma AdvanceAnswers(s: System, id: TxId)
    requires Holds(s) && id in s.txs
    ensures
      var after := Next(s, Advance(id)).answers;
      if MoveOf(s.ledger.db, s.txs, id).Finish? then after == s.answers + [SerialAnswer(s.ledger.db, s.txs[id].work)]
      else after == s.answers || after == s.answers + [GaveUp]
  {
    if MoveOf(s.ledger.db, s.txs, id).Finish? { FinishIsSerial(s.ledger, s.txs, id); }
  }

  /** What a conflict answers: nothing while a staff command still has its fresh attempt. */
  function ConflictAnswers(t: Tx): seq<Answer> {
    if t.work.StaffWork? && !t.retried then [] else [GaveUp]
  }

  /** The answers that a step gives: of a transaction that ends, what its work answers run alone. */
  function StepAnswers(s: System, e: Event): seq<Answer> {
    match e
    case Advance(id) =>
      if id !in s.txs then []
      else (match MoveOf(s.ledger.db, s.txs, id)
        case Finish(_, _) => [SerialAnswer(s.ledger.db, s.txs[id].work)]
        case Clash => ConflictAnswers(s.txs[id])
        case _ => [])
    case Abort(id) => if id in s.txs then ConflictAnswers(s.txs[id]) else []
    case _ => []
  }

  function RunAnswers(s: System, events: seq<Event>): seq<Answer> {
    if events == [] then []
    else
      var front := events[..|events| - 1];
      RunAnswers(s, front) + StepAnswers(Run(s, front), events[|events| - 1])
  }

  lemma StepAnswersLikeSerial(s: System, e: Event)
    requires Holds(s)
    ensures Next(s, e).answers == s.answers + StepAnswers(s, e)
  {
    if e.Advance? && e.id in s.txs && MoveOf(s.ledger.db, s.txs, e.id).Finish? { FinishIsSerial(s.ledger, s.txs, e.id); }
  }

  lemma AnswersJoin(a: seq<Answer>, b: seq<Answer>, c: seq<Answer>)
    ensures a + b + c == a + (b + c)
  {
  }

  /** And the answers of every interleaving are those of the serial run, in the order in which the transactions end. */
  lemma {:induction false} AnswersAreSerial(s: System, events: seq<Event>)
    requires Holds(s)
    ensures Run(s, events).answers == s.answers + RunAnswers(s, events)
  {
    if events != [] {
      var front, last := events[..|events| - 1], events[|events| - 1];
      AnswersAreSerial(s, front);
      RunIsSerial(s, front);
      StepAnswersLikeSerial(Run(s, front), last);
      AnswersJoin(s.answers, RunAnswers(s, front), StepAnswers(Run(s, front), last));
    }
  }

  lemma AdvanceCountsPromotions(s: System, id: TxId)
    requires Holds(s) && PromotionsCounted(s) && id in s.txs
    ensures PromotionsCounted(Next(s, Advance(id)))
  {
    AdvanceAnswers(s, id);
    AdvanceHolds(s, id);
    PromotionsGrow(s.answers, GaveUp);
    PromotionsGrow(s.answers, SerialAnswer(s.ledger.db, s.txs[id].work));
    PromotionMakesReceipt(s.ledger, s.txs[id].work);
  }

  lemma StepCountsPromotions(s: System, e: Event)
    requires Holds(s) && PromotionsCounted(s)
    ensures PromotionsCounted(Next(s, e))
  {
    match e
    case Advance(id) => if id in s.txs { AdvanceCountsPromotions(s, id); }
    case Abort(id) => PromotionsGrow(s.answers, GaveUp);
    case Other(event) => if WrittenBy(event).Some? { OtherEventsKeepRoles(s.ledger, event); }
    case Begin(_, _) =>
  }

  /**
   At most one bootstrap succeeds, whatever runs at the same time: from a state without administrators and receipt,
   the successful answers, the receipts and the administrators are always equally many, and never more than one.
   */
  lemma {:induction false} OneBootstrapSucceeds(l: Ledger, events: seq<Event>)
    requires LedgerHolds(l) && Administrators(l.db.users) == {} && l.db.receipt == None
    ensures
      var s := Run(System(l, map[], []), events);
      && PromotionsCounted(s) && Promotions(s.answers) == |Administrators(s.ledger.db.users)| <= 1
  {
    var start := System(l, map[], []);
    RunIsSerial(start, events);
    BootstrapHappensOnce(l, SerialRun(start, events), Nomination(0, "", 0), 0);
    RunCountsPromotions(start, events);
  }

  lemma {:induction false} RunCountsPromotions(s: System, events: seq<Event>)
    requires Holds(s) && PromotionsCounted(s)
    ensures PromotionsCounted(Run(s, events))
  {
    if events != [] {
      RunCountsPromotions(s, events[..|events| - 1]);
      RunIsSerial(s, events[..|events| - 1]);
      StepCountsPromotions(Run(s, events[..|events| - 1]), events[|events| - 1]);
    }
  }

  /** A conflict gives a staff command exactly one fresh attempt; anything else, and a second conflict, gives up. */
  lemma ConflictTells(s: System, id: TxId)
    requires id in s.txs
    ensures
      var after, t := Next(s, Abort(id)), s.txs[id];
      && after.ledger == s.ledger
      && (forall u | u in s.txs && u != id :: u in after.txs && after.txs[u] == s.txs[u])
      && (if t.work.StaffWork? && !t.retried
          then after.txs.Keys == s.txs.Keys && after.txs[id] == Tx(t.work, true, Locking(0)) && after.answers == s.answers
          else after.txs.Keys == s.txs.Keys - {id} && after.answers == s.answers + [GaveUp])
  {
  }

  // --- Somebody goes on ---

  /** The transaction still asks for a lock. */
  predicate Asking(t: Tx) {
    t.pc.Locking? && t.pc.held < |ScriptFor(t.work)|
  }

  function Wanted(t: Tx): LockOrder.LockKey
    requires Asking(t)
  {
    ScriptFor(t.work)[t.pc.held].key
  }

  predicate AllAsking(txs: map<TxId, Tx>, ids: set<TxId>) {
    forall u | u in ids :: u in txs && Asking(txs[u])
  }

  lemma {:induction false} SomeoneAsksLast(txs: map<TxId, Tx>, ids: set<TxId>) returns (id: TxId)
    requires AllAsking(txs, ids) && ids != {}
    ensures id in ids && forall u | u in ids :: !LockOrder.Before(Wanted(txs[id]), Wanted(txs[u]))
    decreases |ids|
  {
    var x :| x in ids;
    if ids == {x} {
      id := x;
    } else {
      id := SomeoneAsksLast(txs, ids - {x});
      if LockOrder.Before(Wanted(txs[id]), Wanted(txs[x])) { id := x; }
    }
  }

  lemma ScriptAscends(w: Work)
    ensures LockOrder.Ascending(ScriptFor(w))
  {
    match w
    case StaffWork(actorId, targetId, _, _) => LockOrder.ScriptsAscend(LockOrder.StaffCommand(actorId, targetId));
    case BootWork(n, _) => LockOrder.ScriptsAscend(LockOrder.Bootstrap(n.userId));
    case VerifyWork(id, _) => LockOrder.ScriptsAscend(LockOrder.AccountWork(id, LockOrder.Exclusive));
  }

  /** Who holds the lock that comes last in the order among all wanted ones is not asking for another. */
  lemma LastWantedIsFree(txs: map<TxId, Tx>, id: TxId)
    requires AllAsking(txs, txs.Keys) && id in txs
    requires forall u | u in txs :: !LockOrder.Before(Wanted(txs[id]), Wanted(txs[u]))
    ensures Free(txs, id, Wanted(txs[id]))
  {
    forall u | u in txs && u != id ensures !HoldsLock(txs[u], Wanted(txs[id])) {
      if HoldsLock(txs[u], Wanted(txs[id])) {
        ScriptAscends(txs[u].work);
        assert false;
      }
    }
  }

  lemma SomeoneIsFree(s: System) returns (id: TxId)
    requires Holds(s) && s.txs != map[]
    ensures id in s.txs && !MoveOf(s.ledger.db, s.txs, id).Wait?
  {
    if x :| x in s.txs && !Asking(s.txs[x]) {
      id := x;
      assert ReadsHold(s.txs[id], s.ledger.db);
    } else {
      assert s.txs.Keys != {};
      id := SomeoneAsksLast(s.txs, s.txs.Keys);
      LastWantedIsFree(s.txs, id);
    }
  }

  /** Whatever is going on, one of the outstanding transactions takes its next step when it is let to. */
  lemma SomeoneGoesOn(s: System) returns (id: TxId)
    requires Holds(s) && s.txs != map[]
    ensures id in s.txs && Next(s, Advance(id)) != s
  {
    id := SomeoneIsFree(s);
    StepIsTaken(s, id, Next(s, Advance(id)));
  }

  lemma StepIsTaken(s: System, id: TxId, after: System)
    requires id in s.txs && !MoveOf(s.ledger.db, s.txs, id).Wait? && after == Next(s, Advance(id))
    ensures after != s
  {
    if id in after.txs { assert after.txs[id] != s.txs[id]; }
  }

  /** Work starts without a lock, and other writes reach the rows that nobody has locked. */
  lemma StartAndOtherTell(s: System, id: TxId, work: Work, e: StaffHistory.Event)
    ensures id !in s.txs ==> Next(s, Begin(id, work)) == s.(txs := s.txs[id := Tx(work, false, Locking(0))])
    ensures (e.Register? || e.Discard? || e.EditProfile?) && s.txs == map[] ==>
      Next(s, Other(e)) == s.(ledger := StaffHistory.Next(s.ledger, e))
  {
  }
}

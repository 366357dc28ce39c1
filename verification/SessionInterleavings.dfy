/**
 Logins, refreshes, logouts, password changes and resets at the same time. The comparison runs outside the
 transaction; then come the row lock, the recheck, and the write that the commit makes visible.
 */
module SessionInterleavings {
  import opened Foundations
  import opened Accounts
  import opened Sessions

  type TxId = nat

  datatype Op =
    | Login(user: Id, password: string, rememberMe: bool)
    | Refresh(token: Token)
    | Logout(user: Id, token: Token)
    | LogoutAll(user: Id)
    | ChangePassword(user: Id, current: string, next: Hash)
    | ResetPassword(user: Id, resetToken: nat, next: Hash)
    | ForgotPassword(user: Id, resetToken: nat)

  datatype Pc =
    | Begun                              // nothing read, no lock
    | Proved(hash: Hash)                 // compared outside, no lock
    | Held                               // lock held, nothing read under it
    | HeldProved(hash: Hash)             // lock held, the compared hash in hand
    | Rechecked(hash: Hash, now: Instant) // rechecked under the lock
    | Found                              // a refresh has read its record
    | Replacing                          // a refresh has deleted its record, not yet committed

  datatype Tx = Tx(op: Op, pc: Pc)

  datatype Outcome = Opened(token: Token) | Done | Refused

  datatype System = System(
    store: Store, origins: map<Id, Origin>, txs: map<TxId, Tx>,
    accepted: seq<Token>, logins: nat, used: set<Id>, clock: Instant)

  datatype Event =
    | Begin(id: TxId, op: Op)
    | Advance(id: TxId, now: Instant, tokenId: Id)
    | Abort(id: TxId)
    | WriteAccount(user: Id, account: Account)
    | AddUser(user: Id, account: Account, hash: Hash)
    | RemoveUser(user: Id)

  function UserOf(op: Op): Id {
    match op
    case Refresh(t) => t.userId
    case Login(user, _, _) => user
    case Logout(user, _) => user
    case LogoutAll(user) => user
    case ChangePassword(user, _, _) => user
    case ResetPassword(user, _, _) => user
    case ForgotPassword(user, _) => user
  }

  /** FOR SHARE for logins and refreshes, FOR UPDATE for everything that writes or revokes. */
  predicate Shares(op: Op) {
    op.Login? || op.Refresh?
  }

  predicate HoldsLock(t: Tx) {
    !t.pc.Begun? && !t.pc.Proved?
  }

  predicate Compatible(a: Op, b: Op) {
    UserOf(a) != UserOf(b) || (Shares(a) && Shares(b))
  }

  predicate LockFree(txs: map<TxId, Tx>, id: TxId, op: Op) {
    forall u | u in txs && u != id && HoldsLock(txs[u]) :: Compatible(op, txs[u].op)
  }

  predicate RowUnlocked(txs: map<TxId, Tx>, user: Id) {
    forall u | u in txs && HoldsLock(txs[u]) :: UserOf(txs[u].op) != user
  }

  /** No other refresh holds the record's row, which its uncommitted deletion locks. */
  predicate RecordFree(txs: map<TxId, Tx>, id: TxId, tokenId: Id) {
    forall u | u in txs && u != id && txs[u].pc.Replacing? && txs[u].op.Refresh? :: txs[u].op.token.tokenId != tokenId
  }

  // --- One step of one transaction ---

  datatype Move = Wait | Go(pc: Pc) | Finish(store: Store, outcome: Outcome)

  function Refuse(s: Store): Move {
    Finish(s, Refused)
  }

  function MoveOf(s: Store, txs: map<TxId, Tx>, id: TxId, now: Instant, tokenId: Id): Move
    requires id in txs
  {
    var t := txs[id];
    match t.pc
    case Begun => Start(s, txs, id, now)
    case Proved(h) => if LockFree(txs, id, t.op) then Go(HeldProved(h)) else Wait
    case Held => Act(s, t.op, now)
    case HeldProved(h) => Recheck(s, t.op, h, now)
    case Rechecked(h, at) => Write(s, t.op, now, tokenId)
    case Found =>
      if !t.op.Refresh? || !RecordFree(txs, id, t.op.token.tokenId) then Wait
      else if Live(s, t.op.token) then Go(Replacing) else Refuse(s)
    case Replacing =>
      if !t.op.Refresh? then Wait
      else
        var after := Rotated(s, t.op.token, tokenId, now);
        Finish(after, Opened(after.records[tokenId].token))
  }

  /** Reading the credential and comparing it, or taking the lock at once where nothing is compared outside. */
  function Start(s: Store, txs: map<TxId, Tx>, id: TxId, now: Instant): Move
    requires id in txs
  {
    match txs[id].op
    case Login(user, password, _) =>
      if user in s.users && Matches(password, s.users[user].passwordHash) then Go(Proved(s.users[user].passwordHash))
      else Refuse(s)
    case ChangePassword(user, current, next) =>
      if user !in s.users || !Matches(current, s.users[user].passwordHash) then Refuse(s)
      else if Matches(next.password, s.users[user].passwordHash) then Refuse(s)
      else Go(Proved(s.users[user].passwordHash))
    case ResetPassword(user, token, next) =>
      if !ResetPending(s, user, token, now) || Matches(next.password, s.users[user].passwordHash) then Refuse(s)
      else Go(Proved(s.users[user].passwordHash))
    case Refresh(t) =>
      if !VerifierAccepts(t, now) then Refuse(s) else if LockFree(txs, id, txs[id].op) then Go(Held) else Wait
    case _ => if LockFree(txs, id, txs[id].op) then Go(Held) else Wait
  }

  function Act(s: Store, op: Op, now: Instant): Move {
    match op
    case Refresh(t) => if Refreshable(s, t, now) then Go(Found) else Refuse(s)
    case Logout(user, t) => if user in s.users then Finish(LoggedOut(s, user, t), Done) else Refuse(s)
    case LogoutAll(user) => if user in s.users then Finish(LoggedOutEverywhere(s, user), Done) else Refuse(s)
    case ForgotPassword(user, token) => Finish(ResetRequested(s, user, token, now), Done)
    case _ => Wait
  }

  function Recheck(s: Store, op: Op, h: Hash, now: Instant): Move {
    match op
    case Login(user, _, _) => if Credential(s, user, h) then Go(Rechecked(h, now)) else Refuse(s)
    case ChangePassword(user, _, _) => if MayChange(s, user, h) then Go(Rechecked(h, now)) else Refuse(s)
    case ResetPassword(user, token, _) => if MayReset(s, user, token, h, now) then Go(Rechecked(h, now)) else Refuse(s)
    case _ => Wait
  }

  function Write(s: Store, op: Op, now: Instant, tokenId: Id): Move {
    match op
    case Login(user, _, rememberMe) =>
      var after := WithSession(s, tokenId, user, rememberMe, now + Lifetime(rememberMe) * 1000, now);
      Finish(after, Opened(after.records[tokenId].token))
    case ChangePassword(user, _, next) => if user in s.users then Finish(PasswordWritten(s, user, next), Done) else Wait
    case ResetPassword(user, _, next) => if user in s.users then Finish(PasswordWritten(s, user, next), Done) else Wait
    case _ => Wait
  }

  // --- One step of the system ---

  /** The origin of the record that a committed step opened: a login is its own, a refresh inherits. */
  function OriginsAfter(s: System, t: Tx, now: Instant, tokenId: Id): map<Id, Origin> {
    match (t.op, t.pc)
    case (Login(_, _, rememberMe), Rechecked(h, _)) =>
      s.origins[tokenId := Origin(s.logins, h, now + Lifetime(rememberMe) * 1000)]
    case (Refresh(old_), Replacing) =>
      if old_.tokenId in s.origins then s.origins[tokenId := s.origins[old_.tokenId]] else s.origins
    case _ => s.origins
  }

  predicate Commits(t: Tx) {
    (t.op.Login? && t.pc.Rechecked?) || (t.op.Refresh? && t.pc.Replacing?)
  }

  function Next(s: System, e: Event): System {
    match e
    case Begin(id, op) => if id in s.txs then s else s.(txs := s.txs[id := Tx(op, Begun)])
    case Advance(id, now, tokenId) =>
      if id !in s.txs || now < s.clock || (Commits(s.txs[id]) && tokenId in s.used) then s
      else Advanced(s.(clock := now), id, now, tokenId)
    case Abort(id) => s.(txs := s.txs - {id})
    case WriteAccount(user, a) =>
      if user in s.store.users && RowUnlocked(s.txs, user) then s.(store := AccountWritten(s.store, user, a)) else s
    case AddUser(user, a, h) =>
      if user !in s.store.users && RowUnlocked(s.txs, user)
      then s.(store := s.store.(users := s.store.users[user := User(a, h, None)])) else s
    case RemoveUser(user) => if RowUnlocked(s.txs, user) then s.(store := UserRemoved(s.store, user)) else s
  }

  function Advanced(s: System, id: TxId, now: Instant, tokenId: Id): System
    requires id in s.txs
  {
    var t := s.txs[id];
    match MoveOf(s.store, s.txs, id, now, tokenId)
    case Wait => s
    case Go(pc) => s.(txs := s.txs[id := t.(pc := pc)])
    case Finish(store, outcome) =>
      System(store, OriginsAfter(s, t, now, tokenId), s.txs - {id},
        if t.op.Refresh? && outcome.Opened? then s.accepted + [t.op.token] else s.accepted,
        if t.op.Login? && outcome.Opened? then s.logins + 1 else s.logins,
        if Commits(t) then s.used + {tokenId} else s.used, s.clock)
  }

  function Run(s: System, events: seq<Event>): System {
    if events == [] then s else Next(Run(s, events[..|events| - 1]), events[|events| - 1])
  }

  // --- The invariant ---

  /** What the comparison outside the transaction has shown about the compared hash. */
  predicate ProvedBy(op: Op, h: Hash) {
    match op
    case Login(_, password, _) => Matches(password, h)
    case ChangePassword(_, current, next) => Matches(current, h) && !Matches(next.password, h)
    case ResetPassword(_, _, next) => !Matches(next.password, h)
    case _ => false
  }

  predicate ProofHolds(t: Tx) {
    match t.pc
    case Proved(h) => ProvedBy(t.op, h)
    case HeldProved(h) => ProvedBy(t.op, h)
    case Rechecked(h, _) => ProvedBy(t.op, h)
    case _ => true
  }

  /** What a transaction has read under its lock is still so. */
  predicate ReadsHold(t: Tx, s: Store) {
    ProofHolds(t) && match t.pc
    case Rechecked(h, at) =>
      (match t.op
      case Login(user, _, _) => Credential(s, user, h)
      case ChangePassword(user, _, _) => MayChange(s, user, h)
      case ResetPassword(user, token, _) => MayReset(s, user, token, h, at)
      case _ => false)
    case Found => t.op.Refresh?
    case Replacing => t.op.Refresh? && Live(s, t.op.token)
    case _ => true
  }

  predicate Apart(t: Tx, u: Tx) {
    && (HoldsLock(t) && HoldsLock(u) ==> Compatible(t.op, u.op))
    && (t.pc.Replacing? && u.pc.Replacing? && t.op.Refresh? && u.op.Refresh? ==> t.op.token.tokenId != u.op.token.tokenId)
  }

  predicate TxsHold(txs: map<TxId, Tx>, s: Store) {
    && (forall id | id in txs :: ReadsHold(txs[id], s))
    && (forall id, u | id in txs && u in txs && id != u :: Apart(txs[id], txs[u]))
  }

  predicate IdsHold(s: System) {
    && (forall id | id in s.store.records :: id in s.used)
    && (forall t | t in s.accepted :: t.tokenId in s.used && t.tokenId !in s.store.records)
    && (forall i, j :: 0 <= i < j < |s.accepted| ==> s.accepted[i].tokenId != s.accepted[j].tokenId)
    && (forall id | id in s.store.records && id in s.origins :: s.origins[id].login < s.logins)
  }

  predicate Holds(s: System) {
    SessionsHold(s.store, s.origins) && TxsHold(s.txs, s.store) && IdsHold(s)
  }

  // --- What one transaction leaves alone ---

  /** Credentials and records of other users stay; with `sharing`, every user row stays. */
  predicate Frame(a: Store, b: Store, user: Id, sharing: bool) {
    && (forall u | u in a.users && (u != user || sharing) :: u in b.users && b.users[u] == a.users[u])
    && (forall id | id in a.records && a.records[id].userId != user :: id in b.records && b.records[id] == a.records[id])
  }

  lemma ReadsLast(u: Tx, a: Store, b: Store, user: Id, sharing: bool)
    requires ReadsHold(u, a) && Frame(a, b, user, sharing)
    requires HoldsLock(u) ==> UserOf(u.op) != user || (sharing && Shares(u.op))
    requires u.pc.Replacing? && u.op.Refresh? && UserOf(u.op) == user ==> Live(b, u.op.token)
    ensures ReadsHold(u, b)
  {
  }

  lemma FinishFrames(s: Store, txs: map<TxId, Tx>, id: TxId, now: Instant, tokenId: Id)
    requires id in txs && ReadsHold(txs[id], s) && MoveOf(s, txs, id, now, tokenId).Finish?
    requires Commits(txs[id]) ==> tokenId !in s.records
    ensures
      var m, t := MoveOf(s, txs, id, now, tokenId), txs[id];
      && Frame(s, m.store, UserOf(t.op), Shares(t.op))
      && (m.store != s ==> HoldsLock(t))
      && (Shares(t.op) ==> forall r | r in s.records && !(t.op.Refresh? && r == t.op.token.tokenId) ::
            r in m.store.records && m.store.records[r] == s.records[r])
  {
  }

  lemma FinishKeepsTxs(s: Store, txs: map<TxId, Tx>, id: TxId, now: Instant, tokenId: Id)
    requires id in txs && TxsHold(txs, s) && MoveOf(s, txs, id, now, tokenId).Finish?
    requires Commits(txs[id]) ==> tokenId !in s.records
    ensures TxsHold(txs - {id}, MoveOf(s, txs, id, now, tokenId).store)
  {
    var m, t := MoveOf(s, txs, id, now, tokenId), txs[id];
    FinishFrames(s, txs, id, now, tokenId);
    if m.store != s {
      forall u | u in txs - {id} ensures ReadsHold(txs[u], m.store) {
        assert Apart(t, txs[u]);
        OtherReadsLast(s, txs, id, now, tokenId, u);
      }
    }
  }

  lemma OtherReadsLast(s: Store, txs: map<TxId, Tx>, id: TxId, now: Instant, tokenId: Id, u: TxId)
    requires id in txs && u in txs && u != id && ReadsHold(txs[id], s) && ReadsHold(txs[u], s) && Apart(txs[id], txs[u])
    requires MoveOf(s, txs, id, now, tokenId).Finish? && MoveOf(s, txs, id, now, tokenId).store != s
    requires Commits(txs[id]) ==> tokenId !in s.records
    ensures ReadsHold(txs[u], MoveOf(s, txs, id, now, tokenId).store)
  {
    var m, t, other := MoveOf(s, txs, id, now, tokenId), txs[id], txs[u];
    FinishFrames(s, txs, id, now, tokenId);
    if other.pc.Replacing? && other.op.Refresh? && UserOf(other.op) == UserOf(t.op) {
      if t.op.Refresh? { FinishedRefreshWasReplacing(s, txs, id, now, tokenId); }
      assert Live(m.store, other.op.token);
    }
    ReadsLast(other, s, m.store, UserOf(t.op), Shares(t.op));
  }

  lemma FinishedRefreshWasReplacing(s: Store, txs: map<TxId, Tx>, id: TxId, now: Instant, tokenId: Id)
    requires id in txs && ReadsHold(txs[id], s) && txs[id].op.Refresh?
    requires MoveOf(s, txs, id, now, tokenId).Finish? && MoveOf(s, txs, id, now, tokenId).store != s
    ensures txs[id].pc.Replacing?
  {
  }

  lemma GoKeepsTxs(s: Store, txs: map<TxId, Tx>, id: TxId, now: Instant, tokenId: Id)
    requires id in txs && TxsHold(txs, s) && MoveOf(s, txs, id, now, tokenId).Go?
    ensures TxsHold(txs[id := txs[id].(pc := MoveOf(s, txs, id, now, tokenId).pc)], s)
  {
    var moved := txs[id].(pc := MoveOf(s, txs, id, now, tokenId).pc);
    GoReads(s, txs, id, now, tokenId);
    forall u | u in txs && u != id ensures Apart(moved, txs[u]) && Apart(txs[u], moved) {
      assert Apart(txs[id], txs[u]);
      GoKeepsApart(s, txs, id, now, tokenId, u);
    }
  }

  lemma GoReads(s: Store, txs: map<TxId, Tx>, id: TxId, now: Instant, tokenId: Id)
    requires id in txs && ReadsHold(txs[id], s) && MoveOf(s, txs, id, now, tokenId).Go?
    ensures ReadsHold(txs[id].(pc := MoveOf(s, txs, id, now, tokenId).pc), s)
  {
  }

  lemma GoKeepsApart(s: Store, txs: map<TxId, Tx>, id: TxId, now: Instant, tokenId: Id, u: TxId)
    requires id in txs && u in txs && u != id && Apart(txs[id], txs[u]) && MoveOf(s, txs, id, now, tokenId).Go?
    ensures
      var moved := txs[id].(pc := MoveOf(s, txs, id, now, tokenId).pc);
      Apart(moved, txs[u]) && Apart(txs[u], moved)
  {
  }

  // --- Sessions and ids ---

  lemma LoginKeepsSessions(s: System, id: TxId, now: Instant, tokenId: Id)
    requires Holds(s) && id in s.txs && s.txs[id].op.Login? && s.txs[id].pc.Rechecked? && tokenId !in s.used
    ensures SessionsHold(Write(s.store, s.txs[id].op, now, tokenId).store, OriginsAfter(s, s.txs[id], now, tokenId))
  {
    var op, h := s.txs[id].op, s.txs[id].pc.hash;
    var absolute := now + Lifetime(op.rememberMe) * 1000;
    LoginKeeps(s.store, s.origins, tokenId, op.user, op.rememberMe, absolute, now, Origin(s.logins, h, absolute));
  }

  lemma RevocationKeepsSessions(s: Store, origins: map<Id, Origin>, op: Op, now: Instant)
    requires SessionsHold(s, origins) && Act(s, op, now).Finish?
    ensures SessionsHold(Act(s, op, now).store, origins)
  {
    match op
    case Logout(user, token) => FewerRecordsHold(s, origins, LoggedOut(s, user, token).records);
    case LogoutAll(user) => FewerRecordsHold(s, origins, Without(s.records, user));
    case ForgotPassword(user, token) => CredentialsKeptKeeps(s, ResetRequested(s, user, token, now).users, origins);
    case _ =>
  }

  lemma PasswordKeepsSessions(s: Store, origins: map<Id, Origin>, op: Op, now: Instant, tokenId: Id)
    requires SessionsHold(s, origins) && (op.ChangePassword? || op.ResetPassword?) && Write(s, op, now, tokenId).Finish?
    ensures SessionsHold(Write(s, op, now, tokenId).store, origins)
  {
    PasswordKeeps(s, origins, op.user, op.next);
  }

  lemma FinishKeepsSessions(s: System, id: TxId, now: Instant, tokenId: Id)
    requires Holds(s) && id in s.txs && MoveOf(s.store, s.txs, id, now, tokenId).Finish?
    requires Commits(s.txs[id]) ==> tokenId !in s.used
    ensures SessionsHold(MoveOf(s.store, s.txs, id, now, tokenId).store, OriginsAfter(s, s.txs[id], now, tokenId))
  {
    var t := s.txs[id];
    match t.pc
    case Held => RevocationKeepsSessions(s.store, s.origins, t.op, now);
    case Replacing => RotationKeeps(s.store, s.origins, t.op.token, tokenId, now);
    case Rechecked(h, _) =>
      if t.op.Login? {
        LoginKeepsSessions(s, id, now, tokenId);
      } else {
        PasswordKeepsSessions(s.store, s.origins, t.op, now, tokenId);
      }
    case _ =>
  }

  lemma RotationIds(s: System, id: TxId, now: Instant, tokenId: Id)
    requires Holds(s) && id in s.txs && s.txs[id].op.Refresh? && s.txs[id].pc.Replacing? && tokenId !in s.used
    ensures IdsHold(Advanced(s, id, now, tokenId))
  {
    var t := s.txs[id].op.token;
    RotationKeeps(s.store, s.origins, t, tokenId, now);
    assert forall x | x in s.accepted + [t] :: x in s.accepted || x == t;
    assert forall i | 0 <= i < |s.accepted| :: s.accepted[i] in s.accepted;
  }

  lemma FinishKeepsIds(s: System, id: TxId, now: Instant, tokenId: Id)
    requires Holds(s) && id in s.txs && MoveOf(s.store, s.txs, id, now, tokenId).Finish?
    requires Commits(s.txs[id]) ==> tokenId !in s.used
    ensures IdsHold(Advanced(s, id, now, tokenId))
  {
    if s.txs[id].op.Refresh? && s.txs[id].pc.Replacing? {
      RotationIds(s, id, now, tokenId);
    } else if s.txs[id].op.Login? && s.txs[id].pc.Rechecked? {
      LoginIds(s, id, now, tokenId);
    } else {
      assert forall r | r in MoveOf(s.store, s.txs, id, now, tokenId).store.records :: r in s.store.records;
    }
  }

  lemma LoginIds(s: System, id: TxId, now: Instant, tokenId: Id)
    requires Holds(s) && id in s.txs && s.txs[id].op.Login? && s.txs[id].pc.Rechecked? && tokenId !in s.used
    ensures IdsHold(Advanced(s, id, now, tokenId))
  {
  }

  // --- Every step, every run ---

  lemma AdvanceHolds(s: System, id: TxId, now: Instant, tokenId: Id)
    requires Holds(s) && id in s.txs && (Commits(s.txs[id]) ==> tokenId !in s.used)
    ensures Holds(Advanced(s, id, now, tokenId))
  {
    match MoveOf(s.store, s.txs, id, now, tokenId)
    case Wait =>
    case Go(pc) => GoKeepsTxs(s.store, s.txs, id, now, tokenId);
    case Finish(store, outcome) =>
      FinishKeepsSessions(s, id, now, tokenId);
      FinishKeepsIds(s, id, now, tokenId);
      FinishKeepsTxs(s.store, s.txs, id, now, tokenId);
  }

  lemma UnlockedWriteKeepsTxs(txs: map<TxId, Tx>, a: Store, b: Store, user: Id)
    requires TxsHold(txs, a) && RowUnlocked(txs, user) && Frame(a, b, user, false)
    ensures TxsHold(txs, b)
  {
    forall u | u in txs ensures ReadsHold(txs[u], b) {
      ReadsLast(txs[u], a, b, user, false);
    }
  }

  lemma UserWriteHolds(s: System, after: Store, user: Id)
    requires Holds(s) && RowUnlocked(s.txs, user) && Frame(s.store, after, user, false)
    requires SessionsHold(after, s.origins) && forall id | id in after.records :: id in s.store.records
    ensures Holds(s.(store := after))
  {
    UnlockedWriteKeepsTxs(s.txs, s.store, after, user);
  }

  lemma StepHolds(s: System, e: Event)
    requires Holds(s)
    ensures Holds(Next(s, e)) && s.clock <= Next(s, e).clock && s.used <= Next(s, e).used
  {
    match e
    case Begin(id, op) =>
    case Abort(id) =>
    case Advance(id, now, tokenId) =>
      if id in s.txs && now >= s.clock && (Commits(s.txs[id]) ==> tokenId !in s.used) {
        AdvanceHolds(s.(clock := now), id, now, tokenId);
      }
    case WriteAccount(user, a) =>
      if user in s.store.users && RowUnlocked(s.txs, user) {
        CredentialsKeptKeeps(s.store, AccountWritten(s.store, user, a).users, s.origins);
        UserWriteHolds(s, AccountWritten(s.store, user, a), user);
      }
    case AddUser(user, a, h) =>
      if user !in s.store.users && RowUnlocked(s.txs, user) {
        CredentialsKeptKeeps(s.store, s.store.users[user := User(a, h, None)], s.origins);
        UserWriteHolds(s, s.store.(users := s.store.users[user := User(a, h, None)]), user);
      }
    case RemoveUser(user) =>
      if RowUnlocked(s.txs, user) {
        RemovalKeeps(s.store, s.origins, user);
        UserWriteHolds(s, UserRemoved(s.store, user), user);
      }
  }

  /**
   In every interleaving: each live refresh record descends from a login that proved the password hash stored now,
   each login has at most one live record, and no refresh token is accepted twice.
   */
  lemma {:induction false} RunHolds(s: System, events: seq<Event>)
    requires Holds(s)
    ensures Holds(Run(s, events)) && s.clock <= Run(s, events).clock && s.used <= Run(s, events).used
  {
    if events != [] {
      RunHolds(s, events[..|events| - 1]);
      StepHolds(Run(s, events[..|events| - 1]), events[|events| - 1]);
    }
  }

  lemma NobodySignedInHolds(users: map<Id, User>, clock: Instant)
    ensures Holds(System(Store(users, map[]), map[], map[], [], 0, {}, clock))
  {
  }

  // --- What follows ---

  /** A refresh that commits continues a login that proved the password stored at that very moment. */
  lemma RefreshProvesCurrentPassword(s: System, events: seq<Event>, id: TxId, now: Instant, tokenId: Id)
    requires Holds(s) && id in Run(s, events).txs && Run(s, events).txs[id].op.Refresh?
    requires MoveOf(Run(s, events).store, Run(s, events).txs, id, now, tokenId).Finish?
    requires MoveOf(Run(s, events).store, Run(s, events).txs, id, now, tokenId).outcome.Opened?
    ensures
      var r := Run(s, events);
      var t := r.txs[id].op.token;
      && t.tokenId in r.origins && Credential(r.store, t.userId, r.origins[t.tokenId].hash)
      && t !in r.accepted
  {
    RunHolds(s, events);
    var r := Run(s, events);
    assert Live(r.store, r.txs[id].op.token);
    assert RecordHolds(r.store, r.origins, r.txs[id].op.token.tokenId);
  }

  /** Every session of the user descends from login number n or a later one. */
  predicate SessionsSince(s: System, user: Id, n: nat) {
    forall id | id in s.store.records && s.store.records[id].userId == user :: id in s.origins && s.origins[id].login >= n
  }

  /** A record after a step was there before, or it is the one the step opened: by a new login, or for an old session. */
  lemma RecordsAfter(s: System, id: TxId, now: Instant, tokenId: Id, r: Id)
    requires Holds(s) && id in s.txs && (Commits(s.txs[id]) ==> tokenId !in s.used)
    requires r in Advanced(s, id, now, tokenId).store.records
    ensures
      var after, t := Advanced(s, id, now, tokenId), s.txs[id];
      if r != tokenId || !Commits(t) then
        r in s.store.records && after.store.records[r] == s.store.records[r]
        && (r in s.origins ==> r in after.origins && after.origins[r] == s.origins[r])
      else if t.op.Login? then r in after.origins && after.origins[r].login == s.logins
      else
        t.op.Refresh? && t.op.token.tokenId in s.store.records && t.op.token.tokenId in s.origins
        && s.store.records[t.op.token.tokenId].userId == after.store.records[r].userId
        && r in after.origins && after.origins[r] == s.origins[t.op.token.tokenId]
  {
    if s.txs[id].pc.Replacing? && s.txs[id].op.Refresh? { RotationKeeps(s.store, s.origins, s.txs[id].op.token, tokenId, now); }
  }

  lemma AdvanceKeepsSince(s: System, id: TxId, now: Instant, tokenId: Id, user: Id, n: nat)
    requires Holds(s) && id in s.txs && (Commits(s.txs[id]) ==> tokenId !in s.used)
    requires SessionsSince(s, user, n) && n <= s.logins
    ensures SessionsSince(Advanced(s, id, now, tokenId), user, n) && n <= Advanced(s, id, now, tokenId).logins
  {
    var after := Advanced(s, id, now, tokenId);
    forall r | r in after.store.records && after.store.records[r].userId == user
      ensures r in after.origins && after.origins[r].login >= n
    {
      RecordsAfter(s, id, now, tokenId, r);
    }
  }

  lemma StepKeepsSince(s: System, e: Event, user: Id, n: nat)
    requires Holds(s) && SessionsSince(s, user, n) && n <= s.logins
    ensures SessionsSince(Next(s, e), user, n) && n <= Next(s, e).logins
  {
    if e.Advance? && e.id in s.txs && e.now >= s.clock && (Commits(s.txs[e.id]) ==> e.tokenId !in s.used) {
      AdvanceKeepsSince(s.(clock := e.now), e.id, e.now, e.tokenId, user, n);
    }
  }

  lemma {:induction false} RunKeepsSince(s: System, events: seq<Event>, user: Id, n: nat)
    requires Holds(s) && SessionsSince(s, user, n) && n <= s.logins
    ensures SessionsSince(Run(s, events), user, n) && n <= Run(s, events).logins
  {
    if events != [] {
      RunKeepsSince(s, events[..|events| - 1], user, n);
      RunHolds(s, events[..|events| - 1]);
      StepKeepsSince(Run(s, events[..|events| - 1]), events[|events| - 1], user, n);
    }
  }

  /** The step that commits a password change or reset. */
  predicate WritesPassword(s: System, id: TxId, now: Instant, tokenId: Id) {
    && id in s.txs && (s.txs[id].op.ChangePassword? || s.txs[id].op.ResetPassword?) && now >= s.clock
    && MoveOf(s.store, s.txs, id, now, tokenId).Finish? && MoveOf(s.store, s.txs, id, now, tokenId).outcome == Done
  }

  lemma WrittenPasswordRevokes(s: System, id: TxId, now: Instant, tokenId: Id)
    requires WritesPassword(s, id, now, tokenId)
    ensures
      var after := Next(s, Advance(id, now, tokenId));
      && Credential(after.store, s.txs[id].op.user, s.txs[id].op.next) && after.logins == s.logins
      && forall r | r in after.store.records :: after.store.records[r].userId != s.txs[id].op.user
  {
  }

  /**
   In every interleaving, when a password change or reset commits, its user has no session left, and at any later
   time every session of that user descends from a login that committed after it: no older session ever refreshes.
   */
  lemma PasswordWriteEndsEverySession(
    s: System, events: seq<Event>, id: TxId, now: Instant, tokenId: Id, later: seq<Event>)
    requires Holds(s) && WritesPassword(Run(s, events), id, now, tokenId)
    ensures
      var r := Run(s, events);
      var user, after := r.txs[id].op.user, Next(r, Advance(id, now, tokenId));
      && Holds(after) && Credential(after.store, user, r.txs[id].op.next)
      && (forall x | x in after.store.records :: after.store.records[x].userId != user)
      && SessionsSince(Run(after, later), user, r.logins)
  {
    var r := Run(s, events);
    RunHolds(s, events);
    StepHolds(r, Advance(id, now, tokenId));
    WrittenPasswordRevokes(r, id, now, tokenId);
    RunKeepsSince(Next(r, Advance(id, now, tokenId)), later, r.txs[id].op.user, r.logins);
  }

  /** The password that a login was given matches the hash stored when its session is created. */
  lemma LoginProvesStoredPassword(s: System, events: seq<Event>, id: TxId, now: Instant, tokenId: Id)
    requires Holds(s) && id in Run(s, events).txs && Run(s, events).txs[id].op.Login?
    requires MoveOf(Run(s, events).store, Run(s, events).txs, id, now, tokenId).Finish?
    requires MoveOf(Run(s, events).store, Run(s, events).txs, id, now, tokenId).outcome.Opened?
    ensures
      var r := Run(s, events);
      var op := r.txs[id].op;
      op.user in r.store.users && Matches(op.password, r.store.users[op.user].passwordHash)
  {
    RunHolds(s, events);
  }

  /** A changed password replaces the one that was given as current, and differs from it; a reset one differs too. */
  lemma WrittenPasswordDiffers(s: System, events: seq<Event>, id: TxId, now: Instant, tokenId: Id)
    requires Holds(s) && id in Run(s, events).txs
    requires Run(s, events).txs[id].op.ChangePassword? || Run(s, events).txs[id].op.ResetPassword?
    requires MoveOf(Run(s, events).store, Run(s, events).txs, id, now, tokenId).Finish?
    requires MoveOf(Run(s, events).store, Run(s, events).txs, id, now, tokenId).outcome == Done
    ensures
      var r := Run(s, events);
      var op := r.txs[id].op;
      && op.user in r.store.users && !Matches(op.next.password, r.store.users[op.user].passwordHash)
      && (op.ChangePassword? ==> Matches(op.current, r.store.users[op.user].passwordHash))
      && Eligible(r.store.users[op.user])
  {
    RunHolds(s, events);
  }

  /** Logins, refreshes, logouts and password writes leave every account as it is. */
  lemma SessionStepsLeaveAccountsAlone(s: System, id: TxId, now: Instant, tokenId: Id, u: Id)
    requires u in s.store.users
    ensures
      var after := Next(s, Advance(id, now, tokenId)).store.users;
      u in after && after[u].account == s.store.users[u].account
  {
  }
}

/**
 What the session operations answer, told by the columns of the rows: when each one is refused, what its commit
 leaves behind, what can never happen afterwards, and that some operation can always go on.
 */
module SessionAnswers {
  import opened Foundations
  import opened Accounts
  import opened Sessions
  import opened SessionInterleavings

  /** The step of transaction `id` that ends it with this outcome. */
  predicate Ends(s: System, id: TxId, now: Instant, tokenId: Id, o: Outcome) {
    && id in s.txs && now >= s.clock && (Commits(s.txs[id]) ==> tokenId !in s.used)
    && MoveOf(s.store, s.txs, id, now, tokenId).Finish? && MoveOf(s.store, s.txs, id, now, tokenId).outcome == o
  }

  /** The step that grants a refresh of token t. */
  predicate Grants(s: System, id: TxId, now: Instant, tokenId: Id, t: Token) {
    && id in s.txs && s.txs[id].op == Refresh(t) && MoveOf(s.store, s.txs, id, now, tokenId).Finish?
    && MoveOf(s.store, s.txs, id, now, tokenId).outcome.Opened?
  }

  /** An account that may set a new password. */
  predicate InGoodStanding(a: Account) {
    && a.status == ACTIVE && a.emailVerifiedAt.Some?
    && (a.role == ADMIN || (a.staffApprovedAt.Some? && a.staffApprovedById.Some? && a.department.Some?))
  }

  // --- When an operation is refused ---

  predicate Proves(s: Store, user: Id, password: string) {
    user in s.users && s.users[user].passwordHash.password == password
  }

  predicate HashIs(s: Store, user: Id, h: Hash) {
    user in s.users && s.users[user].passwordHash == h
  }

  /** The stored reset token is this one, and it has not expired. */
  predicate ResetOpen(s: Store, user: Id, token: nat, now: Instant) {
    user in s.users && match s.users[user].reset case None => false case Some(r) => r.token == token && r.expiresAt > now
  }

  /** The stored record of the token, unexpired by the record and by the claim, of a user who still exists. */
  predicate RefreshOpen(s: Store, t: Token, now: Instant) {
    && t.userId in s.users && t.tokenId in s.records && s.records[t.tokenId].token == t
    && s.records[t.tokenId].userId == t.userId && s.records[t.tokenId].expiresAt > now && t.expiresAt * 1000 > now
  }

  /** What is wrong with an operation at its comparison or at its recheck under the lock. */
  predicate Faulty(s: Store, t: Tx, now: Instant) {
    match (t.op, t.pc)
    case (Login(user, password, _), Begun) => !Proves(s, user, password)
    case (Login(user, _, _), HeldProved(h)) => !HashIs(s, user, h)
    case (ChangePassword(user, current, next), Begun) => !Proves(s, user, current) || next.password == current
    case (ChangePassword(user, _, _), HeldProved(h)) => !HashIs(s, user, h) || !InGoodStanding(s.users[user].account)
    case (ResetPassword(user, token, next), Begun) => !ResetOpen(s, user, token, now) || Proves(s, user, next.password)
    case (ResetPassword(user, token, _), HeldProved(h)) =>
      !ResetOpen(s, user, token, now) || !HashIs(s, user, h) || !InGoodStanding(s.users[user].account)
    case (Refresh(token), Begun) => Seconds(now) >= token.exp + CLOCK_TOLERANCE_SECONDS
    case (Refresh(token), Held) => !RefreshOpen(s, token, now)
    case (Refresh(token), Found) => token.tokenId !in s.records || s.records[token.tokenId].token != token
    case (Logout(user, _), Held) => user !in s.users
    case (LogoutAll(user), Held) => user !in s.users
    case _ => false
  }

  /**
   In every reachable state an operation that is not kept waiting is refused exactly when something is wrong with it
   at that moment, and a refusal leaves users and records alone.
   */
  lemma RefusedExactlyWhenFaulty(s: System, id: TxId, now: Instant, tokenId: Id)
    requires Holds(s) && id in s.txs && !MoveOf(s.store, s.txs, id, now, tokenId).Wait?
    ensures
      var m := MoveOf(s.store, s.txs, id, now, tokenId);
      && (m.Finish? && m.outcome == Refused <==> Faulty(s.store, s.txs[id], now))
      && (m.Finish? && m.outcome == Refused ==> m.store == s.store)
  {
    assert ReadsHold(s.txs[id], s.store);
    if s.txs[id].pc.Found? && s.txs[id].op.token.tokenId in s.store.records {
      assert RecordHolds(s.store, s.origins, s.txs[id].op.token.tokenId);
    }
  }

  // --- Nobody is kept waiting for ever ---

  /** Only operations without a comparison take their lock with nothing in hand. */
  predicate Suits(t: Tx) {
    t.pc.Held? ==> t.op.Refresh? || t.op.Logout? || t.op.LogoutAll? || t.op.ForgotPassword?
  }

  lemma {:induction false} EveryoneSuits(s: System, events: seq<Event>)
    requires forall id | id in s.txs :: Suits(s.txs[id])
    ensures forall id | id in Run(s, events).txs :: Suits(Run(s, events).txs[id])
  {
    if events != [] { EveryoneSuits(s, events[..|events| - 1]); }
  }

  /** Logins and refreshes only read the row of their user. */
  predicate ReadsOnly(op: Op) {
    op.Login? || op.Refresh?
  }

  /**
   Who waits, waits for another transaction: for the row lock of one about the same user that writes, or that it would
   write under, or for the record that another refresh is replacing.
   */
  lemma WaitsForSomeone(s: System, id: TxId, now: Instant, tokenId: Id)
    requires Holds(s) && id in s.txs && Suits(s.txs[id]) && MoveOf(s.store, s.txs, id, now, tokenId).Wait?
    ensures HoldsLock(s.txs[id]) ==> s.txs[id].pc.Found? && exists u | u in s.txs && u != id :: s.txs[u].pc.Replacing?
    ensures !HoldsLock(s.txs[id]) ==> exists u | u in s.txs && u != id ::
      HoldsLock(s.txs[u]) && UserOf(s.txs[u].op) == UserOf(s.txs[id].op) && !(ReadsOnly(s.txs[u].op) && ReadsOnly(s.txs[id].op))
  {
    assert ReadsHold(s.txs[id], s.store);
  }

  lemma MoveChanges(s: System, id: TxId, now: Instant, tokenId: Id)
    requires id in s.txs && now >= s.clock && tokenId !in s.used && !MoveOf(s.store, s.txs, id, now, tokenId).Wait?
    ensures Next(s, Advance(id, now, tokenId)).txs != s.txs
  {
    if MoveOf(s.store, s.txs, id, now, tokenId).Go? { assert MoveOf(s.store, s.txs, id, now, tokenId).pc != s.txs[id].pc; }
  }

  lemma SomeoneIsFree(s: System, now: Instant, tokenId: Id) returns (id: TxId)
    requires Holds(s) && s.txs != map[] && forall x | x in s.txs :: Suits(s.txs[x])
    ensures id in s.txs && !MoveOf(s.store, s.txs, id, now, tokenId).Wait?
  {
    if x :| x in s.txs && s.txs[x].pc.Replacing? {
      id := x;
    } else if x :| x in s.txs && HoldsLock(s.txs[x]) {
      id := x;
    } else {
      assert s.txs.Keys != {};
      id :| id in s.txs;
    }
    if MoveOf(s.store, s.txs, id, now, tokenId).Wait? { WaitsForSomeone(s, id, now, tokenId); }
  }

  /** Whatever is going on, at any time one of the outstanding operations takes its next step when it is let to. */
  lemma SomeoneGoesOn(s: System, now: Instant, tokenId: Id) returns (id: TxId)
    requires Holds(s) && s.txs != map[] && now >= s.clock && tokenId !in s.used
    requires forall x | x in s.txs :: Suits(s.txs[x])
    ensures id in s.txs && Next(s, Advance(id, now, tokenId)).txs != s.txs
  {
    id := SomeoneIsFree(s, now, tokenId);
    MoveChanges(s, id, now, tokenId);
  }

  /** A new operation starts with nothing in hand, and an aborted one leaves nothing behind. */
  lemma StartAndAbortTell(s: System, id: TxId, op: Op)
    ensures id !in s.txs ==> Next(s, Begin(id, op)) == s.(txs := s.txs[id := Tx(op, Begun)])
    ensures Next(s, Abort(id)) == s.(txs := map u | u in s.txs && u != id :: s.txs[u])
  {
  }

  predicate RowFree(s: System, user: Id) {
    forall u | u in s.txs && UserOf(s.txs[u].op) == user :: !HoldsLock(s.txs[u])
  }

  /** Other services write, add and remove user rows that nobody has locked; a removal takes the sessions along. */
  lemma OtherWritesTell(s: System, user: Id, a: Account, h: Hash)
    requires RowFree(s, user)
    ensures user in s.store.users ==>
      Next(s, WriteAccount(user, a)).store.users == s.store.users[user := s.store.users[user].(account := a)]
      && Next(s, WriteAccount(user, a)).store.records == s.store.records
    ensures user !in s.store.users ==> Next(s, AddUser(user, a, h)).store.users == s.store.users[user := User(a, h, None)]
    ensures
      var after := Next(s, RemoveUser(user)).store;
      after.users == s.store.users - {user}
      && after.records == map r | r in s.store.records && s.store.records[r].userId != user :: s.store.records[r]
  {
  }

  // --- What a commit leaves behind ---

  /** The record of a new session, column by column. */
  function Opening(tokenId: Id, user: Id, rememberMe: bool, absolute: Instant, clock: Instant): RefreshRecord {
    var ends := absolute / 1000;
    var exp := if ends <= clock / 1000 then clock / 1000 + 1 else ends;
    RefreshRecord(user, Token(tokenId, user, rememberMe, ends, exp), absolute)
  }

  /** A login opens one session: for a month if it is to be remembered, and otherwise for a day. */
  lemma LoginOpensOneSession(s: System, id: TxId, now: Instant, tokenId: Id)
    requires Holds(s) && id in s.txs && s.txs[id].op.Login? && s.txs[id].pc.Rechecked? && tokenId !in s.used && now >= s.clock
    ensures
      var op, after := s.txs[id].op, Next(s, Advance(id, now, tokenId)).store;
      var days := if op.rememberMe then 30 else 1;
      && Next(s, Advance(id, now, tokenId)).logins == s.logins + 1
      && after.users == s.store.users && after.records.Keys == s.store.records.Keys + {tokenId}
      && after.records[tokenId] == Opening(tokenId, op.user, op.rememberMe, now + days * 86400000, now)
      && MoveOf(s.store, s.txs, id, now, tokenId).outcome == Opened(after.records[tokenId].token)
      && forall r | r in s.store.records && r != tokenId :: after.records[r] == s.store.records[r]
  {
  }

  /** A granted refresh replaces its own record by one of the same user, the same choice and the same last second. */
  lemma RefreshReplacesOneSession(s: System, id: TxId, now: Instant, tokenId: Id, t: Token)
    requires Holds(s) && Grants(s, id, now, tokenId, t) && tokenId !in s.used && now >= s.clock
    ensures
      var after := Next(s, Advance(id, now, tokenId)).store;
      && t.tokenId in s.store.records && s.store.records[t.tokenId].token == t && t.tokenId != tokenId
      && Next(s, Advance(id, now, tokenId)).accepted == s.accepted + [t]
      && after.users == s.store.users && after.records.Keys == s.store.records.Keys - {t.tokenId} + {tokenId}
      && after.records[tokenId] == Opening(tokenId, t.userId, t.rememberMe, t.expiresAt * 1000, now)
      && MoveOf(s.store, s.txs, id, now, tokenId).outcome == Opened(after.records[tokenId].token)
      && forall r | r in s.store.records && r != t.tokenId && r != tokenId :: after.records[r] == s.store.records[r]
  {
    assert ReadsHold(s.txs[id], s.store);
  }

  /** A password change or reset in a committed run: who may do it, and the whole of what it writes. */
  lemma PasswordWriteTells(s: System, events: seq<Event>, id: TxId, now: Instant, tokenId: Id)
    requires Holds(s) && WritesPassword(Run(s, events), id, now, tokenId)
    ensures
      var r := Run(s, events);
      var op, pc, after := r.txs[id].op, r.txs[id].pc, Next(r, Advance(id, now, tokenId)).store;
      && pc.Rechecked? && op.user in r.store.users && InGoodStanding(r.store.users[op.user].account)
      && (op.ResetPassword? ==> ResetOpen(r.store, op.user, op.resetToken, pc.now))
      && after.users == r.store.users[op.user := User(r.store.users[op.user].account, op.next, None)]
      && after.records == map x | x in r.store.records && r.store.records[x].userId != op.user :: r.store.records[x]
  {
    RunHolds(s, events);
    assert ReadsHold(Run(s, events).txs[id], Run(s, events).store);
  }

  /** A reset request stores its token for half an hour, but only for an account in good standing. */
  lemma RequestTells(s: System, id: TxId, now: Instant, tokenId: Id)
    requires Ends(s, id, now, tokenId, Done) && s.txs[id].op.ForgotPassword?
    ensures
      var op, after := s.txs[id].op, Next(s, Advance(id, now, tokenId)).store;
      if op.user in s.store.users && InGoodStanding(s.store.users[op.user].account)
      then after == Store(
        s.store.users[op.user := s.store.users[op.user].(reset := Some(Reset(op.resetToken, now + 1800000)))], s.store.records)
      else after == s.store
  {
  }

  // --- What a logout ends ---

  /** The token has been issued, and no record holds it. */
  predicate Spent(s: System, t: Token) {
    t.tokenId in s.used && !(t.tokenId in s.store.records && s.store.records[t.tokenId].token == t)
  }

  lemma SpentIsNeverGranted(s: System, t: Token, id: TxId, now: Instant, tokenId: Id)
    requires Holds(s) && Spent(s, t)
    ensures !Grants(s, id, now, tokenId, t)
  {
    if id in s.txs { assert ReadsHold(s.txs[id], s.store); }
  }

  lemma StepKeepsSpent(s: System, e: Event, t: Token)
    requires Holds(s) && Spent(s, t)
    ensures Spent(Next(s, e), t)
  {
    if e.Advance? && e.id in s.txs && e.now >= s.clock && (Commits(s.txs[e.id]) ==> e.tokenId !in s.used)
      && t.tokenId in Next(s, e).store.records
    {
      RecordsAfter(s.(clock := e.now), e.id, e.now, e.tokenId, t.tokenId);
    }
  }

  lemma {:induction false} RunKeepsSpent(s: System, events: seq<Event>, t: Token)
    requires Holds(s) && Spent(s, t)
    ensures Spent(Run(s, events), t)
  {
    if events != [] {
      RunKeepsSpent(s, events[..|events| - 1], t);
      RunHolds(s, events[..|events| - 1]);
      StepKeepsSpent(Run(s, events[..|events| - 1]), events[|events| - 1], t);
    }
  }

  lemma LogoutTells(s: System, id: TxId, now: Instant, tokenId: Id)
    requires Holds(s) && Ends(s, id, now, tokenId, Done) && s.txs[id].op.Logout?
    ensures
      var op, after := s.txs[id].op, Next(s, Advance(id, now, tokenId));
      && after.store.users == s.store.users && after.used == s.used && after.logins == s.logins
      && (forall r | r in s.store.records :: r in after.store.records <==>
            !(s.store.records[r].userId == op.user && s.store.records[r].token == op.token))
      && (forall r | r in after.store.records :: r in s.store.records && after.store.records[r] == s.store.records[r])
  {
  }

  lemma LogoutRemovesItsRecord(s: System, id: TxId, now: Instant, tokenId: Id)
    requires Holds(s) && Ends(s, id, now, tokenId, Done) && s.txs[id].op.Logout? && s.txs[id].op.token.userId == s.txs[id].op.user
    ensures
      var t, after := s.txs[id].op.token, Next(s, Advance(id, now, tokenId));
      && after.store.users == s.store.users && after.used == s.used
      && after.store.records == map x | x in s.store.records && s.store.records[x].token != t :: s.store.records[x]
  {
    LogoutTells(s, id, now, tokenId);
    forall x | x in s.store.records && s.store.records[x].token == s.txs[id].op.token
      ensures s.store.records[x].userId == s.txs[id].op.user
    {
      assert RecordHolds(s.store, s.origins, x);
    }
  }

  lemma SpentForGood(s: System, later: seq<Event>, t: Token, id: TxId, at: Instant, newId: Id)
    requires Holds(s) && Spent(s, t)
    ensures !Grants(Run(s, later), id, at, newId, t)
  {
    RunHolds(s, later);
    RunKeepsSpent(s, later, t);
    SpentIsNeverGranted(Run(s, later), t, id, at, newId);
  }

  /**
   In every interleaving, when the logout of a user with an own token commits, only the session of that token is gone,
   and whatever happens later the token is never granted again.
   */
  lemma LogoutEndsItsSession(
    s: System, events: seq<Event>, id: TxId, now: Instant, tokenId: Id,
    later: seq<Event>, other: TxId, at: Instant, newId: Id)
    requires Holds(s) && Ends(Run(s, events), id, now, tokenId, Done) && Run(s, events).txs[id].op.Logout?
    requires Run(s, events).txs[id].op.token.tokenId in Run(s, events).used
    requires Run(s, events).txs[id].op.token.userId == Run(s, events).txs[id].op.user
    ensures
      var r := Run(s, events);
      var t, after := r.txs[id].op.token, Next(r, Advance(id, now, tokenId));
      && after.store.users == r.store.users
      && after.store.records == (map x | x in r.store.records && r.store.records[x].token != t :: r.store.records[x])
      && !Grants(Run(after, later), other, at, newId, t)
  {
    var r := Run(s, events);
    RunHolds(s, events);
    LogoutRemovesItsRecord(r, id, now, tokenId);
    StepHolds(r, Advance(id, now, tokenId));
    SpentForGood(Next(r, Advance(id, now, tokenId)), later, r.txs[id].op.token, other, at, newId);
  }

  lemma LogoutAllTells(s: System, id: TxId, now: Instant, tokenId: Id)
    requires Ends(s, id, now, tokenId, Done) && s.txs[id].op.LogoutAll?
    ensures
      var user, after := s.txs[id].op.user, Next(s, Advance(id, now, tokenId));
      && after.store.users == s.store.users && after.logins == s.logins
      && after.store.records == map x | x in s.store.records && s.store.records[x].userId != user :: s.store.records[x]
  {
  }

  /** When a logout everywhere commits, every session of the user is gone, and later ones descend from later logins. */
  lemma LogoutAllEndsEverySession(
    s: System, events: seq<Event>, id: TxId, now: Instant, tokenId: Id, later: seq<Event>)
    requires Holds(s) && Ends(Run(s, events), id, now, tokenId, Done) && Run(s, events).txs[id].op.LogoutAll?
    ensures
      var r := Run(s, events);
      var user, after := r.txs[id].op.user, Next(r, Advance(id, now, tokenId));
      && after.store.users == r.store.users
      && after.store.records == (map x | x in r.store.records && r.store.records[x].userId != user :: r.store.records[x])
      && SessionsSince(Run(after, later), user, r.logins)
  {
    var r := Run(s, events);
    RunHolds(s, events);
    LogoutAllTells(r, id, now, tokenId);
    StepHolds(r, Advance(id, now, tokenId));
    RunKeepsSince(Next(r, Advance(id, now, tokenId)), later, r.txs[id].op.user, r.logins);
  }

  // --- Where a reset token comes from ---

  function ResetOf(s: System, user: Id): Option<Reset> {
    if user in s.store.users then s.store.users[user].reset else None
  }

  /** The step of a run that stored this reset token, half an hour before it expires, for an account in good standing. */
  predicate Requested(s: System, events: seq<Event>, k: nat, user: Id, reset: Reset) {
    && k < |events| && events[k].Advance?
    && var r := Run(s, events[..k]);
    && events[k].id in r.txs && r.txs[events[k].id].op == ForgotPassword(user, reset.token)
    && reset.expiresAt == events[k].now + 1800000
    && user in r.store.users && InGoodStanding(r.store.users[user].account)
  }

  lemma StepBringsReset(s: System, e: Event, user: Id)
    requires Holds(s) && ResetOf(Next(s, e), user).Some? && ResetOf(Next(s, e), user) != ResetOf(s, user)
    ensures
      var reset := ResetOf(Next(s, e), user).value;
      && e.Advance? && e.id in s.txs && s.txs[e.id].op == ForgotPassword(user, reset.token)
      && reset.expiresAt == e.now + 1800000 && user in s.store.users && InGoodStanding(s.store.users[user].account)
  {
  }

  lemma {:induction false} ResetComesFromRequest(s: System, events: seq<Event>, user: Id) returns (k: nat)
    requires Holds(s) && ResetOf(s, user) == None && ResetOf(Run(s, events), user).Some?
    ensures Requested(s, events, k, user, ResetOf(Run(s, events), user).value)
  {
    var front, last := events[..|events| - 1], events[|events| - 1];
    RunHolds(s, front);
    if ResetOf(Run(s, events), user) == ResetOf(Run(s, front), user) {
      k := ResetComesFromRequest(s, front, user);
      assert events[..k] == front[..k];
    } else {
      StepBringsReset(Run(s, front), last, user);
      k := |front|;
    }
  }

  /**
   A reset token works once: after a committed password write, a reset of that user commits only with a token that
   was requested since, within half an hour before its recheck.
   */
  lemma ResetTokenWorksOnce(
    s: System, id: TxId, now: Instant, tokenId: Id, later: seq<Event>, other: TxId, at: Instant, newId: Id) returns (k: nat)
    requires Holds(s) && WritesPassword(s, id, now, tokenId)
    requires
      var q := Run(Next(s, Advance(id, now, tokenId)), later);
      WritesPassword(q, other, at, newId) && q.txs[other].op.ResetPassword? && q.txs[other].op.user == s.txs[id].op.user
    ensures
      var after := Next(s, Advance(id, now, tokenId));
      var t := Run(after, later).txs[other];
      && k < |later| && later[k].Advance? && t.pc.Rechecked? && t.pc.now < later[k].now + 1800000
      && Requested(after, later, k, t.op.user, Reset(t.op.resetToken, later[k].now + 1800000))
  {
    var after := Next(s, Advance(id, now, tokenId));
    StepHolds(s, Advance(id, now, tokenId));
    PasswordWriteTells(s, [], id, now, tokenId);
    PasswordWriteTells(after, later, other, at, newId);
    k := ResetComesFromRequest(after, later, s.txs[id].op.user);
  }
}

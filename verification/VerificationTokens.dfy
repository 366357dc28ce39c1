/**
 Email verification: registration stores a token, a resend replaces it after a cooldown, a failed delivery
 removes the row again, and a valid token verifies the account. Token digests are injective, and every
 generated token is new.
 */
module VerificationTokens {
  import opened Foundations
  import opened Accounts
  import StaffAuthority

  const VERIFICATION_TOKEN_TTL_MS: nat := 86400000
  const RESEND_COOLDOWN_MS: nat := 60000

  /** A stored token and its expiry are set and cleared together. */
  datatype Stored = Stored(token: nat, expiresAt: Instant)

  datatype Row = Row(account: Account, stored: Option<Stored>)

  /** What happened to the tokens of an account, in order. */
  datatype Entry = Issued(token: nat, at: Instant) | Confirmed(token: nat) | Removed(token: nat)

  datatype State = State(rows: map<Id, Row>, history: map<Id, seq<Entry>>)

  /**
   Each event is the locked part of one request. The lookups before the lock only choose the row, so the row is
   free here. A resend reads the clock twice: for the cooldown, and later for the new expiry.
   */
  datatype Event =
    | Register(account: Account, token: nat, now: Instant)
    | Undelivered(id: Id, token: nat)
    | Resend(id: Id, token: nat, checkedAt: Instant, storedAt: Instant)
    | Verify(id: Id, email: string, token: nat, now: Instant)
    | Decide(id: Id, account: Account)

  predicate Pending(r: Row) {
    r.account.status == PENDING_VERIFICATION && r.account.emailVerifiedAt == None
  }

  predicate EmailTaken(rows: map<Id, Row>, email: string) {
    exists id | id in rows :: rows[id].account.email == email
  }

  predicate MayRegister(s: State, a: Account) {
    StaffAuthority.NewAccount(a) && a.id !in s.rows && a.id !in s.history && !EmailTaken(s.rows, a.email)
  }

  /** The cooldown runs from the issue time that the stored expiry implies. */
  predicate MayResend(s: State, id: Id, checkedAt: Instant) {
    && id in s.rows && Pending(s.rows[id]) && s.rows[id].stored.Some?
    && checkedAt - (s.rows[id].stored.value.expiresAt - VERIFICATION_TOKEN_TTL_MS) >= RESEND_COOLDOWN_MS
  }

  predicate MayVerify(s: State, id: Id, email: string, token: nat, now: Instant) {
    && id in s.rows && s.rows[id].account.email == email && Pending(s.rows[id])
    && s.rows[id].stored.Some? && s.rows[id].stored.value.token == token && now < s.rows[id].stored.value.expiresAt
    && s.rows[id].account.accessVersion < MAX_VERSION
  }

  predicate MayRemove(s: State, id: Id, token: nat) {
    id in s.rows && Pending(s.rows[id]) && s.rows[id].stored.Some? && s.rows[id].stored.value.token == token
  }

  /** A staff decision, a bootstrap or a profile write: it neither verifies nor unverifies the account. */
  predicate KeepsVerification(r: Row, a: Account) {
    && a.id == r.account.id && a.email == r.account.email && a.emailVerifiedAt == r.account.emailVerifiedAt
    && (a.status == PENDING_VERIFICATION <==> r.account.status == PENDING_VERIFICATION)
  }

  function Past(s: State, id: Id): seq<Entry> {
    if id in s.history then s.history[id] else []
  }

  function Write(s: State, id: Id, r: Row, e: Entry): State {
    State(s.rows[id := r], s.history[id := Past(s, id) + [e]])
  }

  function Next(s: State, e: Event): State {
    match e
    case Register(a, token, now) =>
      if MayRegister(s, a) then Write(s, a.id, Row(a, Some(Stored(token, now + VERIFICATION_TOKEN_TTL_MS))), Issued(token, now))
      else s
    case Undelivered(id, token) =>
      if MayRemove(s, id, token) then State(s.rows - {id}, s.history[id := Past(s, id) + [Removed(token)]]) else s
    case Resend(id, token, checkedAt, storedAt) =>
      if storedAt >= checkedAt && MayResend(s, id, checkedAt)
      then Write(s, id, s.rows[id].(stored := Some(Stored(token, storedAt + VERIFICATION_TOKEN_TTL_MS))), Issued(token, storedAt))
      else s
    case Verify(id, email, token, now) =>
      if MayVerify(s, id, email, token, now)
      then Write(s, id, Row(StaffAuthority.Verified(s.rows[id].account, now).value, None), Confirmed(token)) else s
    case Decide(id, a) =>
      if id in s.rows && KeepsVerification(s.rows[id], a) then s.(rows := s.rows[id := s.rows[id].(account := a)]) else s
  }

  function Run(s: State, events: seq<Event>): State {
    if events == [] then s else Next(Run(s, events[..|events| - 1]), events[|events| - 1])
  }

  // --- The history of one account ---

  /** A confirmation or a removal ends the history, and it uses the token issued last; issues keep the cooldown. */
  predicate EntryFits(past: seq<Entry>, i: nat)
    requires i < |past|
  {
    match past[i]
    case Issued(_, at) => i > 0 ==> past[i - 1].Issued? && at - past[i - 1].at >= RESEND_COOLDOWN_MS
    case Confirmed(token) => i == |past| - 1 && i > 0 && past[i - 1].Issued? && past[i - 1].token == token
    case Removed(token) => i == |past| - 1 && i > 0 && past[i - 1].Issued? && past[i - 1].token == token
  }

  predicate HistoryFits(past: seq<Entry>) {
    forall i | 0 <= i < |past| :: EntryFits(past, i)
  }

  /** A pending row carries the token issued last; a verified row or a removed one has none. */
  predicate RowFits(s: State, id: Id) {
    var past := Past(s, id);
    if id !in s.rows then past != [] ==> past[|past| - 1].Removed?
    else if s.rows[id].stored == None then past != [] ==> past[|past| - 1].Confirmed? && !Pending(s.rows[id])
    else
      past != [] && past[|past| - 1] == Issued(s.rows[id].stored.value.token,
        s.rows[id].stored.value.expiresAt - VERIFICATION_TOKEN_TTL_MS)
  }

  ghost predicate Holds(s: State) {
    forall id: Id :: HistoryFits(Past(s, id)) && RowFits(s, id)
  }

  lemma HistoryGrows(past: seq<Entry>, e: Entry)
    requires HistoryFits(past) && (past != [] ==> past[|past| - 1].Issued?)
    requires match e
      case Issued(_, at) => past != [] ==> at - past[|past| - 1].at >= RESEND_COOLDOWN_MS
      case Confirmed(token) => past != [] && past[|past| - 1].token == token
      case Removed(token) => past != [] && past[|past| - 1].token == token
    ensures HistoryFits(past + [e])
  {
    var more := past + [e];
    forall i | 0 <= i < |more| ensures EntryFits(more, i) {
      if i < |past| { assert EntryFits(past, i) && past[i].Issued?; }
    }
  }

  lemma StepHolds(s: State, e: Event)
    requires Holds(s)
    ensures Holds(Next(s, e))
  {
    var after := Next(s, e);
    forall id: Id ensures HistoryFits(Past(after, id)) && RowFits(after, id) {
      assert HistoryFits(Past(s, id)) && RowFits(s, id);
      OneStepFits(s, e, id);
    }
  }

  lemma OneStepFits(s: State, e: Event, id: Id)
    requires HistoryFits(Past(s, id)) && RowFits(s, id)
    ensures HistoryFits(Past(Next(s, e), id)) && RowFits(Next(s, e), id)
  {
    match e
    case Register(a, token, now) => if MayRegister(s, a) && a.id == id { HistoryGrows([], Issued(token, now)); }
    case Undelivered(x, token) => if MayRemove(s, x, token) && x == id { HistoryGrows(Past(s, id), Removed(token)); }
    case Resend(x, token, checkedAt, storedAt) =>
      if storedAt >= checkedAt && MayResend(s, x, checkedAt) && x == id { HistoryGrows(Past(s, id), Issued(token, storedAt)); }
    case Verify(x, email, token, now) =>
      if MayVerify(s, x, email, token, now) && x == id { HistoryGrows(Past(s, id), Confirmed(token)); }
    case Decide(x, a) =>
  }

  /** In every run the histories fit the rows, and they only grow. */
  lemma {:induction false} RunHolds(s: State, events: seq<Event>)
    requires Holds(s)
    ensures Holds(Run(s, events)) && forall id: Id :: Past(s, id) <= Past(Run(s, events), id)
  {
    if events != [] {
      var front := Run(s, events[..|events| - 1]);
      RunHolds(s, events[..|events| - 1]);
      StepHolds(front, events[|events| - 1]);
      forall id: Id ensures Past(s, id) <= Past(Run(s, events), id) {
        assert Past(front, id) <= Past(Next(front, events[|events| - 1]), id);
      }
    }
  }

  /** No rows, or rows that are verified already. */
  lemma InitialHolds(rows: map<Id, Row>)
    requires forall id | id in rows :: rows[id].stored == None
    ensures Holds(State(rows, map[]))
  {
  }

  // --- What follows for every run ---

  /** An account is verified at most once, and only by the token that was issued to it last. */
  lemma VerifiedOnceByTheLatestToken(s: State, events: seq<Event>, id: Id, i: nat)
    requires Holds(s) && i < |Past(Run(s, events), id)| && Past(Run(s, events), id)[i].Confirmed?
    ensures
      var past := Past(Run(s, events), id);
      && i == |past| - 1 > 0 && past[i - 1].Issued? && past[i - 1].token == past[i].token
      && forall j | 0 <= j < i :: past[j].Issued?
  {
    RunHolds(s, events);
    var past := Past(Run(s, events), id);
    assert EntryFits(past, i);
    forall j | 0 <= j < i ensures past[j].Issued? {
      assert EntryFits(past, j);
    }
  }

  lemma {:induction false} IssuesSpread(past: seq<Entry>, i: nat, j: nat)
    requires HistoryFits(past) && i <= j < |past| && past[j].Issued?
    ensures past[i].Issued? && past[j].at - past[i].at >= (j - i) * RESEND_COOLDOWN_MS
  {
    assert EntryFits(past, j);
    if i < j { IssuesSpread(past, i, j - 1); }
  }

  /** Issues to one account are at least the cooldown apart, so at most span / cooldown + 1 of them fall in any span of time. */
  lemma IssuesAreBounded(s: State, events: seq<Event>, id: Id, i: nat, j: nat, span: nat)
    requires Holds(s) && i <= j < |Past(Run(s, events), id)|
    requires Past(Run(s, events), id)[i].Issued? && Past(Run(s, events), id)[j].Issued?
    requires Past(Run(s, events), id)[j].at - Past(Run(s, events), id)[i].at <= span
    ensures (j - i) * RESEND_COOLDOWN_MS <= span && j - i + 1 <= span / RESEND_COOLDOWN_MS + 1
  {
    RunHolds(s, events);
    IssuesSpread(Past(Run(s, events), id), i, j);
  }

  /** Cleanup removes a row only while it is pending with the very token that the failed request stored. */
  lemma CleanupRemovesOnlyItsOwnRow(s: State, id: Id, token: nat)
    requires Holds(s)
    ensures
      var after := Next(s, Undelivered(id, token));
      && (after == s || (id in s.rows && Pending(s.rows[id]) && Past(s, id) != []
            && Past(s, id)[|Past(s, id)| - 1].Issued? && Past(s, id)[|Past(s, id)| - 1].token == token
            && id !in after.rows))
      && forall x | x in s.rows && x != id :: x in after.rows && after.rows[x] == s.rows[x]
  {
    assert RowFits(s, id);
  }

  // --- What each request answers, told by the row and by the tokens issued to it ---

  /** The token issued last, while the account waits for it. */
  function Open(s: State, id: Id): Option<Entry> {
    if id in s.rows && s.rows[id].account.status == PENDING_VERIFICATION && s.rows[id].account.emailVerifiedAt == None
      && s.rows[id].stored.Some? && Past(s, id) != []
    then Some(Past(s, id)[|Past(s, id)| - 1]) else None
  }

  /** A row other than this one stays as it is. */
  ghost predicate OthersStay(s: State, after: State, id: Id) {
    forall x: Id | x != id :: (x in s.rows <==> x in after.rows) && (x in s.rows ==> after.rows[x] == s.rows[x])
  }

  /**
   A token verifies exactly when it is the last one issued to the waiting account, for this address, less than a day
   ago; and then the account goes on to its approval and holds no token any more.
   */
  lemma VerifyAnswers(s: State, id: Id, email: string, token: nat, now: Instant)
    requires Holds(s)
    ensures
      var after, open := Next(s, Verify(id, email, token, now)), Open(s, id);
      if open.Some? && open.value.Issued? && open.value.token == token && now - open.value.at < 86400000
        && s.rows[id].account.email == email && s.rows[id].account.accessVersion < MAX_VERSION
      then
        var a := s.rows[id].account;
        && id in after.rows && OthersStay(s, after, id) && Past(after, id) == Past(s, id) + [Confirmed(token)]
        && after.rows[id] == Row(a.(
             status := if a.role == ADMIN then ACTIVE else PENDING_APPROVAL,
             emailVerifiedAt := Some(now), accessVersion := a.accessVersion + 1), None)
      else after == s
  {
    assert RowFits(s, id);
  }

  /** A resend is granted exactly a minute or more after the last issue, and replaces the token for a day. */
  lemma ResendAnswers(s: State, id: Id, token: nat, checkedAt: Instant, storedAt: Instant)
    requires Holds(s) && checkedAt <= storedAt
    ensures
      var after, open := Next(s, Resend(id, token, checkedAt, storedAt)), Open(s, id);
      if open.Some? && open.value.Issued? && checkedAt - open.value.at >= 60000
      then
        && id in after.rows && after.rows[id] == Row(s.rows[id].account, Some(Stored(token, storedAt + 86400000)))
        && Past(after, id) == Past(s, id) + [Issued(token, storedAt)] && OthersStay(s, after, id)
      else after == s
  {
    assert RowFits(s, id);
  }

  /** A failed delivery removes exactly the waiting account whose last token is the undelivered one. */
  lemma UndeliveredAnswers(s: State, id: Id, token: nat)
    requires Holds(s)
    ensures
      var after, open := Next(s, Undelivered(id, token)), Open(s, id);
      if open.Some? && open.value.Issued? && open.value.token == token
      then id !in after.rows && OthersStay(s, after, id) && Past(after, id) == Past(s, id) + [Removed(token)]
      else after == s
  {
    assert RowFits(s, id);
  }

  /** A registration is refused exactly when its id was used or its address is in use; otherwise its token lasts for a day. */
  lemma RegisterAnswers(s: State, a: Account, token: nat, now: Instant)
    requires StaffAuthority.NewAccount(a)
    ensures
      var after := Next(s, Register(a, token, now));
      if a.id !in s.rows && a.id !in s.history && forall x | x in s.rows :: s.rows[x].account.email != a.email
      then
        && a.id in after.rows && after.rows[a.id] == Row(a, Some(Stored(token, now + 86400000)))
        && Past(after, a.id) == [Issued(token, now)] && OthersStay(s, after, a.id)
      else after == s
  {
  }

  /** Other services rewrite an account, its id, address and verification apart; tokens and histories stay. */
  lemma OtherWriteAnswers(s: State, id: Id, a: Account)
    ensures
      var after := Next(s, Decide(id, a));
      if id in s.rows && a.id == s.rows[id].account.id && a.email == s.rows[id].account.email
        && a.emailVerifiedAt == s.rows[id].account.emailVerifiedAt
        && (a.status == PENDING_VERIFICATION) == (s.rows[id].account.status == PENDING_VERIFICATION)
      then after == State(s.rows[id := Row(a, s.rows[id].stored)], s.history)
      else after == s
  {
  }

  // --- The requests as they run against the rows ---

  class AccountRows {
    var rows: map<Id, Row>
    ghost var history: map<Id, seq<Entry>>

    constructor ()
      ensures Valid() && Snapshot() == State(map[], map[])
    {
      rows, history := map[], map[];
    }

    ghost function Snapshot(): State
      reads this
    {
      State(rows, history)
    }

    ghost predicate Valid()
      reads this
    {
      Holds(Snapshot())
    }

    /** The insert of register; an email that is in use conflicts. */
    method Register(a: Account, token: nat, now: Instant) returns (ok: bool)
      requires Valid() && StaffAuthority.NewAccount(a) && a.id !in rows && a.id !in history
      modifies this
      ensures Valid() && Snapshot() == Next(old(Snapshot()), Event.Register(a, token, now))
      ensures ok <==> !EmailTaken(old(rows), a.email)
    {
      StepHolds(Snapshot(), Event.Register(a, token, now));
      if EmailTaken(rows, a.email) {
        return false;
      }
      history := history[a.id := Past(Snapshot(), a.id) + [Issued(token, now)]];
      rows := rows[a.id := Row(a, Some(Stored(token, now + VERIFICATION_TOKEN_TTL_MS)))];
      ok := true;
    }

    /** The conditional delete after a failed delivery. */
    method RemoveUndeliverable(id: Id, token: nat) returns (removed: bool)
      requires Valid()
      modifies this
      ensures Valid() && Snapshot() == Next(old(Snapshot()), Undelivered(id, token))
      ensures removed <==> id in old(rows) && id !in rows
    {
      StepHolds(Snapshot(), Undelivered(id, token));
      if id in rows && Pending(rows[id]) && rows[id].stored.Some? && rows[id].stored.value.token == token {
        history := history[id := Past(Snapshot(), id) + [Removed(token)]];
        rows := rows - {id};
        return true;
      }
      removed := false;
    }

    method ResendVerification(id: Id, token: nat, checkedAt: Instant, storedAt: Instant) returns (sent: bool)
      requires Valid() && checkedAt <= storedAt
      modifies this
      ensures Valid() && Snapshot() == Next(old(Snapshot()), Resend(id, token, checkedAt, storedAt))
      ensures sent <==> MayResend(old(Snapshot()), id, checkedAt)
    {
      StepHolds(Snapshot(), Resend(id, token, checkedAt, storedAt));
      if id !in rows || !Pending(rows[id]) || rows[id].stored == None {
        return false;
      }
      var issuedAt := rows[id].stored.value.expiresAt - VERIFICATION_TOKEN_TTL_MS;
      if checkedAt - issuedAt < RESEND_COOLDOWN_MS {
        return false;
      }
      history := history[id := Past(Snapshot(), id) + [Issued(token, storedAt)]];
      rows := rows[id := rows[id].(stored := Some(Stored(token, storedAt + VERIFICATION_TOKEN_TTL_MS)))];
      sent := true;
    }

    method VerifyEmail(id: Id, email: string, token: nat, now: Instant) returns (ok: bool)
      requires Valid()
      modifies this
      ensures Valid() && Snapshot() == Next(old(Snapshot()), Verify(id, email, token, now))
      ensures ok <==> MayVerify(old(Snapshot()), id, email, token, now)
      ensures ok ==> rows[id].account.emailVerifiedAt == Some(now) && rows[id].stored == None
    {
      StepHolds(Snapshot(), Verify(id, email, token, now));
      if id !in rows {
        return false;
      }
      var account := rows[id].account;
      if account.status == SUSPENDED || account.status != PENDING_VERIFICATION || account.emailVerifiedAt != None {
        return false;
      }
      var next := if account.role == ADMIN then ACTIVE else PENDING_APPROVAL;
      var stored := rows[id].stored;
      if account.email != email || stored == None || stored.value.token != token || stored.value.expiresAt <= now
        || account.accessVersion >= MAX_VERSION
      {
        return false;
      }
      history := history[id := Past(Snapshot(), id) + [Confirmed(token)]];
      rows := rows[id := Row(
        account.(status := next, emailVerifiedAt := Some(now), accessVersion := account.accessVersion + 1), None)];
      ok := true;
    }
  }
}

/** The session operations of the auth service, each run alone against the user and refresh-record tables. */
module SessionService {
  import opened Foundations
  import opened Sessions
  import opened SessionAnswers

  datatype Change = Changed | Unauthorized | WrongPassword | SamePassword | Restricted

  class SessionTables {
    var users: map<Id, User>
    var records: map<Id, RefreshRecord>
    ghost var origins: map<Id, Origin>
    ghost var logins: nat

    constructor (accounts: map<Id, User>)
      ensures Valid() && Snapshot() == Store(accounts, map[])
    {
      users, records, origins, logins := accounts, map[], map[], 0;
    }

    function Snapshot(): Store
      reads this
    {
      Store(users, records)
    }

    /** Every session descends from a login that proved the stored password, and no login has two. */
    ghost predicate Valid()
      reads this
    {
      SessionsHold(Snapshot(), origins) && forall id | id in records && id in origins :: origins[id].login < logins
    }

    method Login(user: Id, password: string, rememberMe: bool, now: Instant, tokenId: Id) returns (t: Option<Token>)
      requires Valid() && tokenId !in records
      modifies this
      ensures Valid()
      ensures t.Some? <==> Proves(old(Snapshot()), user, password)
      ensures Snapshot() == if t.Some?
        then WithSession(old(Snapshot()), tokenId, user, rememberMe, now + Lifetime(rememberMe) * 1000, now) else old(Snapshot())
      ensures t.Some? ==> t.value == records[tokenId].token && origins[tokenId].hash == users[user].passwordHash
    {
      if user !in users || !Matches(password, users[user].passwordHash) {
        return None;
      }
      var absolute := now + Lifetime(rememberMe) * 1000;
      var token := Sign(tokenId, user, rememberMe, absolute, now);
      LoginKeeps(Snapshot(), origins, tokenId, user, rememberMe, absolute, now, Origin(logins, users[user].passwordHash, absolute));
      records := records[tokenId := RefreshRecord(user, token, absolute)];
      origins := origins[tokenId := Origin(logins, users[user].passwordHash, absolute)];
      logins := logins + 1;
      t := Some(token);
    }

    method Refresh(token: Token, now: Instant, tokenId: Id) returns (t: Option<Token>)
      requires Valid() && tokenId !in records
      modifies this
      ensures Valid()
      ensures t.Some? <==> Seconds(now) < token.exp + CLOCK_TOLERANCE_SECONDS && RefreshOpen(old(Snapshot()), token, now)
      ensures Snapshot() == if t.Some? then Rotated(old(Snapshot()), token, tokenId, now) else old(Snapshot())
      ensures t.Some? ==> t.value == records[tokenId].token && t.value.expiresAt == token.expiresAt && token.tokenId !in records
    {
      if !VerifierAccepts(token, now) {
        return None;
      }
      if token.tokenId !in records || records[token.tokenId].userId != token.userId || records[token.tokenId].token != token
        || records[token.tokenId].expiresAt <= now || token.userId !in users
      {
        return None;
      }
      var absolute := token.expiresAt * 1000;
      if absolute <= now {
        return None;
      }
      RotationKeeps(Snapshot(), origins, token, tokenId, now);
      var replacement := Sign(tokenId, token.userId, token.rememberMe, absolute, now);
      records := records - {token.tokenId};
      records := records[tokenId := RefreshRecord(token.userId, replacement, absolute)];
      origins := origins[tokenId := origins[token.tokenId]];
      t := Some(replacement);
    }

    method Logout(user: Id, token: Token, ghost now: Instant) returns (ok: bool)
      requires Valid()
      modifies `records
      ensures Valid() && ok == (user in users)
      ensures Snapshot() == if ok then LoggedOut(old(Snapshot()), user, token) else old(Snapshot())
      ensures ok && token.userId == user ==> !RefreshOpen(Snapshot(), token, now)
    {
      if user !in users {
        return false;
      }
      FewerRecordsHold(Snapshot(), origins, LoggedOut(Snapshot(), user, token).records);
      records := map id | id in records && !(records[id].userId == user && records[id].token == token) :: records[id];
      ok := true;
    }

    method LogoutAll(user: Id) returns (ok: bool)
      requires Valid()
      modifies `records
      ensures Valid() && ok == (user in users)
      ensures Snapshot() == if ok then LoggedOutEverywhere(old(Snapshot()), user) else old(Snapshot())
      ensures ok ==> forall id | id in records :: records[id].userId != user
    {
      if user !in users {
        return false;
      }
      FewerRecordsHold(Snapshot(), origins, Without(records, user));
      records := Without(records, user);
      ok := true;
    }

    method ChangePassword(user: Id, current: string, next: Hash) returns (r: Change)
      requires Valid()
      modifies `users, `records
      ensures Valid()
      ensures r == Unauthorized <==> user !in old(users)
      ensures r == WrongPassword <==> user in old(users) && old(users)[user].passwordHash.password != current
      ensures r == SamePassword <==> Proves(old(Snapshot()), user, current) && next.password == current
      ensures r == Restricted <==>
        Proves(old(Snapshot()), user, current) && next.password != current && !InGoodStanding(old(users)[user].account)
      ensures Snapshot() == if r == Changed then PasswordWritten(old(Snapshot()), user, next) else old(Snapshot())
    {
      if user !in users {
        return Unauthorized;
      }
      if !Matches(current, users[user].passwordHash) {
        return WrongPassword;
      }
      if Matches(next.password, users[user].passwordHash) {
        return SamePassword;
      }
      if !Eligible(users[user]) {
        return Restricted;
      }
      PasswordKeeps(Snapshot(), origins, user, next);
      users := users[user := users[user].(passwordHash := next, reset := None)];
      records := Without(records, user);
      r := Changed;
    }

    method ResetPassword(user: Id, token: nat, next: Hash, now: Instant) returns (r: Change)
      requires Valid()
      modifies `users, `records
      ensures Valid()
      ensures r != WrongPassword && (r == Unauthorized <==> !ResetOpen(old(Snapshot()), user, token, now))
      ensures r == SamePassword <==> ResetOpen(old(Snapshot()), user, token, now) && Proves(old(Snapshot()), user, next.password)
      ensures r == Restricted <==>
        ResetOpen(old(Snapshot()), user, token, now) && !Proves(old(Snapshot()), user, next.password)
        && !InGoodStanding(old(users)[user].account)
      ensures Snapshot() == if r == Changed then PasswordWritten(old(Snapshot()), user, next) else old(Snapshot())
      ensures r == Changed ==> !ResetOpen(Snapshot(), user, token, now)
    {
      if !ResetPending(Snapshot(), user, token, now) {
        return Unauthorized;
      }
      if Matches(next.password, users[user].passwordHash) {
        return SamePassword;
      }
      if !Eligible(users[user]) {
        return Restricted;
      }
      PasswordKeeps(Snapshot(), origins, user, next);
      users := users[user := users[user].(passwordHash := next, reset := None)];
      records := Without(records, user);
      r := Changed;
    }
  }
}

/**
 Sessions: passwords, refresh records and the tokens that name them. A password hash is an injective value,
 and so is the digest of a token, so a record holds the token itself.
 */
module Sessions {
  import opened Foundations
  import opened Accounts

  // --- Values ---

  datatype Hash = Hash(password: string, salt: nat)

  predicate Matches(password: string, h: Hash) {
    h.password == password
  }

  datatype Reset = Reset(token: nat, expiresAt: Instant)

  datatype User = User(account: Account, passwordHash: Hash, reset: Option<Reset>)

  /** The claims of a refresh token: its own `expiresAt` claim is in seconds, and so is the registered claim `exp`. */
  datatype Token = Token(tokenId: Id, userId: Id, rememberMe: bool, expiresAt: int, exp: int)

  datatype RefreshRecord = RefreshRecord(userId: Id, token: Token, expiresAt: Instant)

  datatype Store = Store(users: map<Id, User>, records: map<Id, RefreshRecord>)

  const FAMILY_TTL_SECONDS: nat := 86400
  const REMEMBERED_TTL_SECONDS: nat := 2592000
  const CLOCK_TOLERANCE_SECONDS: nat := 5
  const RESET_TOKEN_TTL_MS: nat := 1800000

  /** Math.floor of milliseconds over a thousand. */
  function Seconds(t: Instant): int {
    t / 1000
  }

  function Lifetime(rememberMe: bool): nat {
    if rememberMe then REMEMBERED_TTL_SECONDS else FAMILY_TTL_SECONDS
  }

  /** The refresh token of generateTokenPair: its lifetime is at least one second. */
  function Sign(tokenId: Id, userId: Id, rememberMe: bool, absolute: Instant, clock: Instant): Token {
    var expiresAt := Seconds(absolute);
    var lifetime := if expiresAt - Seconds(clock) > 1 then expiresAt - Seconds(clock) else 1;
    Token(tokenId, userId, rememberMe, expiresAt, Seconds(clock) + lifetime)
  }

  /** The token is not expired for the verifier, which tolerates a few seconds. */
  predicate VerifierAccepts(t: Token, now: Instant) {
    Seconds(now) < t.exp + CLOCK_TOLERANCE_SECONDS
  }

  // --- The transactions, each run alone ---

  function WithSession(s: Store, tokenId: Id, user: Id, rememberMe: bool, absolute: Instant, clock: Instant): Store {
    s.(records := s.records[tokenId := RefreshRecord(user, Sign(tokenId, user, rememberMe, absolute, clock), absolute)])
  }

  predicate Credential(s: Store, user: Id, h: Hash) {
    user in s.users && s.users[user].passwordHash == h
  }

  /** The record that a refresh looks up, and the checks it must pass. */
  predicate Refreshable(s: Store, t: Token, now: Instant) {
    && Live(s, t) && now < s.records[t.tokenId].expiresAt && t.userId in s.users && now < t.expiresAt * 1000
  }

  predicate Live(s: Store, t: Token) {
    t.tokenId in s.records && s.records[t.tokenId].userId == t.userId && s.records[t.tokenId].token == t
  }

  /** Deleting the old record and creating its replacement. */
  function Rotated(s: Store, t: Token, tokenId: Id, clock: Instant): Store {
    WithSession(s.(records := s.records - {t.tokenId}), tokenId, t.userId, t.rememberMe, t.expiresAt * 1000, clock)
  }

  function Without(records: map<Id, RefreshRecord>, user: Id): map<Id, RefreshRecord> {
    map id | id in records && records[id].userId != user :: records[id]
  }

  /** deleteMany where the user and the token match. */
  function LoggedOut(s: Store, user: Id, t: Token): Store {
    s.(records := map id | id in s.records && !(s.records[id].userId == user && s.records[id].token == t) :: s.records[id])
  }

  function LoggedOutEverywhere(s: Store, user: Id): Store {
    s.(records := Without(s.records, user))
  }

  /** The write of a changed or reset password, with the revocation of every session. */
  function PasswordWritten(s: Store, user: Id, next: Hash): Store
    requires user in s.users
  {
    Store(s.users[user := s.users[user].(passwordHash := next, reset := None)], Without(s.records, user))
  }

  predicate Eligible(u: User) {
    BusinessAuthority(u.account, None) == Granted
  }

  predicate MayChange(s: Store, user: Id, compared: Hash) {
    Credential(s, user, compared) && Eligible(s.users[user])
  }

  predicate ResetPending(s: Store, user: Id, token: nat, now: Instant) {
    user in s.users && s.users[user].reset.Some? && s.users[user].reset.value.token == token
    && now < s.users[user].reset.value.expiresAt
  }

  predicate MayReset(s: Store, user: Id, token: nat, compared: Hash, now: Instant) {
    ResetPending(s, user, token, now) && Eligible(s.users[user]) && s.users[user].passwordHash == compared
  }

  function ResetRequested(s: Store, user: Id, token: nat, now: Instant): Store {
    if user in s.users && Eligible(s.users[user])
    then s.(users := s.users[user := s.users[user].(reset := Some(Reset(token, now + RESET_TOKEN_TTL_MS)))])
    else s
  }

  /** A write to the account of a user that leaves its credential alone. */
  function AccountWritten(s: Store, user: Id, a: Account): Store
    requires user in s.users
  {
    s.(users := s.users[user := s.users[user].(account := a)])
  }

  /** Removing a user removes its sessions with it. */
  function UserRemoved(s: Store, user: Id): Store {
    Store(s.users - {user}, Without(s.records, user))
  }

  // --- Where a session comes from ---

  /** The login a record descends from, the password hash that login proved, and its absolute expiry. */
  datatype Origin = Origin(login: nat, hash: Hash, absolute: Instant)

  predicate RecordHolds(s: Store, origins: map<Id, Origin>, id: Id)
    requires id in s.records
  {
    var r := s.records[id];
    && id in origins && r.token.tokenId == id && r.token.userId == r.userId
    && Credential(s, r.userId, origins[id].hash)
    && r.token.expiresAt == Seconds(origins[id].absolute)
    && (r.expiresAt == origins[id].absolute || r.expiresAt == Seconds(origins[id].absolute) * 1000)
  }

  /**
   Each live record descends from a login that proved the password hash stored now, no login has two live
   records, and a record expires when its login said, or at the start of that second.
   */
  predicate SessionsHold(s: Store, origins: map<Id, Origin>) {
    && (forall id | id in s.records :: RecordHolds(s, origins, id))
    && (forall a, b | a in s.records && b in s.records && a != b && a in origins && b in origins ::
        origins[a].login != origins[b].login)
  }

  predicate NewLogin(s: Store, origins: map<Id, Origin>, login: nat) {
    forall id | id in s.records && id in origins :: origins[id].login != login
  }

  lemma LoginKeeps(s: Store, origins: map<Id, Origin>, tokenId: Id, user: Id, rememberMe: bool, absolute: Instant, clock: Instant, o: Origin)
    requires SessionsHold(s, origins) && tokenId !in s.records
    requires Credential(s, user, o.hash) && o.absolute == absolute && NewLogin(s, origins, o.login)
    ensures SessionsHold(WithSession(s, tokenId, user, rememberMe, absolute, clock), origins[tokenId := o])
  {
    var after, more := WithSession(s, tokenId, user, rememberMe, absolute, clock), origins[tokenId := o];
    forall id | id in after.records ensures RecordHolds(after, more, id) {
      if id != tokenId { assert RecordHolds(s, origins, id); }
    }
  }

  lemma FewerRecordsHold(s: Store, origins: map<Id, Origin>, records: map<Id, RefreshRecord>)
    requires SessionsHold(s, origins)
    requires forall id | id in records :: id in s.records && records[id] == s.records[id]
    ensures SessionsHold(s.(records := records), origins)
  {
    forall id | id in records ensures RecordHolds(s.(records := records), origins, id) {
      assert RecordHolds(s, origins, id);
    }
  }

  lemma RotationKeeps(s: Store, origins: map<Id, Origin>, t: Token, tokenId: Id, clock: Instant)
    requires SessionsHold(s, origins) && Live(s, t) && tokenId !in s.records
    ensures t.tokenId in origins
    ensures SessionsHold(Rotated(s, t, tokenId, clock), origins[tokenId := origins[t.tokenId]])
    ensures Rotated(s, t, tokenId, clock).records[tokenId].expiresAt == t.expiresAt * 1000
  {
    assert RecordHolds(s, origins, t.tokenId);
    var o, fewer := origins[t.tokenId], s.(records := s.records - {t.tokenId});
    FewerRecordsHold(s, origins, s.records - {t.tokenId});
    var after, more := Rotated(s, t, tokenId, clock), origins[tokenId := o];
    forall id | id in after.records ensures RecordHolds(after, more, id) {
      if id != tokenId { assert RecordHolds(fewer, origins, id); }
    }
  }

  lemma PasswordKeeps(s: Store, origins: map<Id, Origin>, user: Id, next: Hash)
    requires SessionsHold(s, origins) && user in s.users
    ensures SessionsHold(PasswordWritten(s, user, next), origins)
  {
    var after := PasswordWritten(s, user, next);
    forall id | id in after.records ensures RecordHolds(after, origins, id) {
      assert RecordHolds(s, origins, id);
    }
  }

  lemma RemovalKeeps(s: Store, origins: map<Id, Origin>, user: Id)
    requires SessionsHold(s, origins)
    ensures SessionsHold(UserRemoved(s, user), origins)
  {
    forall id | id in UserRemoved(s, user).records ensures RecordHolds(UserRemoved(s, user), origins, id) {
      assert RecordHolds(s, origins, id);
    }
  }

  /** Writes that keep every credential keep every session. */
  lemma CredentialsKeptKeeps(s: Store, users: map<Id, User>, origins: map<Id, Origin>)
    requires SessionsHold(s, origins)
    requires forall u | u in s.users :: u in users && users[u].passwordHash == s.users[u].passwordHash
    ensures SessionsHold(s.(users := users), origins)
  {
    forall id | id in s.records ensures RecordHolds(s.(users := users), origins, id) {
      assert RecordHolds(s, origins, id);
    }
  }

  // --- Expiry arithmetic ---

  /** At a fixed clock the signed lifetime ends exactly at the absolute expiry, as long as that second lies ahead. */
  lemma SignedLifetimeEndsAtExpiry(tokenId: Id, user: Id, rememberMe: bool, absolute: Instant, clock: Instant)
    ensures
      var t := Sign(tokenId, user, rememberMe, absolute, clock);
      (t.exp == t.expiresAt <==> Seconds(clock) < t.expiresAt) && Seconds(clock) < t.exp
  {
  }

  /** The expiry of a token rotated k times. */
  function RotatedExpiry(absolute: Instant, k: nat): Instant {
    if k == 0 then absolute else Seconds(RotatedExpiry(absolute, k - 1)) * 1000
  }

  /** Rotation never lengthens a session, costs less than a second in all, and changes nothing after the first time. */
  lemma {:induction false} RotationArithmetic(absolute: Instant, k: nat)
    ensures RotatedExpiry(absolute, k) <= absolute < RotatedExpiry(absolute, k) + 1000
    ensures k >= 1 ==> RotatedExpiry(absolute, k) == RotatedExpiry(absolute, 1)
    ensures RotatedExpiry(absolute, k + 1) <= RotatedExpiry(absolute, k)
  {
    if k > 0 { RotationArithmetic(absolute, k - 1); }
  }

  /** A refresh is granted only before the expiry that the login set. */
  lemma GrantedBeforeExpiry(s: Store, origins: map<Id, Origin>, t: Token, now: Instant)
    requires SessionsHold(s, origins) && Refreshable(s, t, now)
    ensures t.tokenId in origins && now < origins[t.tokenId].absolute
    ensures Credential(s, t.userId, origins[t.tokenId].hash)
  {
    assert RecordHolds(s, origins, t.tokenId);
  }
}

/**
 Explicit locks are taken in one fixed order, so no set of transactions can deadlock on them:
 the bootstrap lock, then account rows in ascending order, then the lock of the command,
 then the draft row, then customer rows in ascending order.
 */
module LockOrder {
  import opened Foundations

  datatype LockKey = BootstrapLock | AccountRow(id: Id) | CommandLock(key: int) | DraftLock(id: Id) | CustomerLock(id: Id)

  datatype Mode = Shared | Exclusive

  datatype Claim = Claim(key: LockKey, mode: Mode)

  function Rank(k: LockKey): nat {
    match k
    case BootstrapLock => 0
    case AccountRow(_) => 1
    case CommandLock(_) => 2
    case DraftLock(_) => 3
    case CustomerLock(_) => 4
  }

  function Within(k: LockKey): int {
    match k
    case BootstrapLock => 0
    case AccountRow(id) => id
    case CommandLock(key) => key
    case DraftLock(id) => id
    case CustomerLock(id) => id
  }

  predicate Before(a: LockKey, b: LockKey) {
    Rank(a) < Rank(b) || (Rank(a) == Rank(b) && Within(a) < Within(b))
  }

  predicate Ascending(script: seq<Claim>) {
    forall i, j :: 0 <= i < j < |script| ==> Before(script[i].key, script[j].key)
  }

  // --- Sorted distinct ids ---

  predicate StrictlySorted(s: seq<Id>) {
    forall i, j :: 0 <= i < j < |s| ==> s[i] < s[j]
  }

  function Insert(s: seq<Id>, x: Id): (r: seq<Id>)
    requires StrictlySorted(s)
    ensures StrictlySorted(r)
    ensures forall y | y in r :: y == x || y in s
    ensures x in r && forall y | y in s :: y in r
  {
    if s == [] then [x]
    else
      var last := s[|s| - 1];
      if last < x then s + [x]
      else if last == x then s
      else
        assert s == s[..|s| - 1] + [last];
        var front := Insert(s[..|s| - 1], x);
        assert forall i | 0 <= i < |front| :: front[i] in front && front[i] < last;
        front + [last]
  }

  /** `[...new Set(ids)].sort()`. */
  function SortedUnique(ids: seq<Id>): (r: seq<Id>)
    ensures StrictlySorted(r)
    ensures forall y :: y in r <==> y in ids
  {
    if ids == [] then []
    else
      assert ids == ids[..|ids| - 1] + [ids[|ids| - 1]];
      Insert(SortedUnique(ids[..|ids| - 1]), ids[|ids| - 1])
  }

  /** The loop of lockAccountRows: one lock after the other, in ascending order of the ids. */
  method LockAccountRows(userIds: seq<Id>, mode: Mode) returns (claims: seq<Claim>)
    ensures claims == AccountClaims(userIds, mode)
  {
    var ids := SortedUnique(userIds);
    claims := [];
    for i := 0 to |ids|
      invariant |claims| == i && forall k | 0 <= k < i :: claims[k] == Claim(AccountRow(ids[k]), mode)
    {
      claims := claims + [Claim(AccountRow(ids[i]), mode)];
    }
  }

  function AccountClaims(ids: seq<Id>, mode: Mode): seq<Claim> {
    var sorted := SortedUnique(ids);
    seq(|sorted|, i requires 0 <= i < |sorted| => Claim(AccountRow(sorted[i]), mode))
  }

  function CustomerClaims(ids: seq<Id>): seq<Claim> {
    var sorted := SortedUnique(ids);
    seq(|sorted|, i requires 0 <= i < |sorted| => Claim(CustomerLock(sorted[i]), Shared))
  }

  // --- What each transaction locks ---

  datatype Operation =
    | Bootstrap(target: Id)
    | StaffCommand(actor: Id, target: Id)
    | AccountWork(user: Id, mode: Mode)
    | CreateCustomer(actor: Id, command: int)
    | UpdateCustomer(actor: Id, command: int, customer: Id)
    | CreateDraft(actor: Id, command: int, linked: Option<Id>)
    | SaveDraft(actor: Id, command: int, draft: Id, linked: Option<Id>, nowLinked: Option<Id>)

  function Present(a: Option<Id>): seq<Id> {
    match a case None => [] case Some(id) => [id]
  }

  /** The locks of a whole transaction, in the order in which it asks for them. */
  function ScriptOf(o: Operation): seq<Claim> {
    match o
    case Bootstrap(target) => [Claim(BootstrapLock, Exclusive)] + AccountClaims([target], Exclusive)
    case StaffCommand(actor, target) => AccountClaims([actor, target], Exclusive)
    case AccountWork(user, mode) => AccountClaims([user], mode)
    case CreateCustomer(actor, command) => Commanded(actor, command)
    case UpdateCustomer(actor, command, customer) => Commanded(actor, command) + [Claim(CustomerLock(customer), Exclusive)]
    case CreateDraft(actor, command, linked) => Commanded(actor, command) + CustomerClaims(Present(linked))
    case SaveDraft(actor, command, draft, linked, nowLinked) =>
      Commanded(actor, command) + [Claim(DraftLock(draft), Exclusive)] + CustomerClaims(Present(linked) + Present(nowLinked))
  }

  function Commanded(actor: Id, command: int): seq<Claim> {
    AccountClaims([actor], Shared) + [Claim(CommandLock(command), Exclusive)]
  }

  /** The claims of each operation, one by one: the rows it reads shared, the rows and resources it writes exclusive. */
  lemma ScriptClaims(o: Operation, c: Claim)
    ensures c in ScriptOf(o) <==>
      match o
      case Bootstrap(target) => c == Claim(BootstrapLock, Exclusive) || c == Claim(AccountRow(target), Exclusive)
      case StaffCommand(actor, target) => c == Claim(AccountRow(actor), Exclusive) || c == Claim(AccountRow(target), Exclusive)
      case AccountWork(user, mode) => c == Claim(AccountRow(user), mode)
      case CreateCustomer(actor, command) => IsCommanded(c, actor, command)
      case UpdateCustomer(actor, command, customer) =>
        IsCommanded(c, actor, command) || c == Claim(CustomerLock(customer), Exclusive)
      case CreateDraft(actor, command, linked) =>
        IsCommanded(c, actor, command) || (linked.Some? && c == Claim(CustomerLock(linked.value), Shared))
      case SaveDraft(actor, command, draft, linked, nowLinked) =>
        IsCommanded(c, actor, command) || c == Claim(DraftLock(draft), Exclusive)
        || (linked.Some? && c == Claim(CustomerLock(linked.value), Shared))
        || (nowLinked.Some? && c == Claim(CustomerLock(nowLinked.value), Shared))
  {
    match o
    case Bootstrap(target) => AccountClaimsOf([target], Exclusive, c);
    case StaffCommand(actor, target) => AccountClaimsOf([actor, target], Exclusive, c);
    case AccountWork(user, mode) => AccountClaimsOf([user], mode, c);
    case CreateCustomer(actor, command) => AccountClaimsOf([actor], Shared, c);
    case UpdateCustomer(actor, command, customer) => AccountClaimsOf([actor], Shared, c);
    case CreateDraft(actor, command, linked) =>
      AccountClaimsOf([actor], Shared, c);
      CustomerClaimsOf(Present(linked), c);
    case SaveDraft(actor, command, draft, linked, nowLinked) =>
      AccountClaimsOf([actor], Shared, c);
      CustomerClaimsOf(Present(linked) + Present(nowLinked), c);
  }

  predicate IsCommanded(c: Claim, actor: Id, command: int) {
    c == Claim(AccountRow(actor), Shared) || c == Claim(CommandLock(command), Exclusive)
  }

  lemma AccountClaimsOf(ids: seq<Id>, mode: Mode, c: Claim)
    ensures c in AccountClaims(ids, mode) <==> c.key.AccountRow? && c.key.id in ids && c.mode == mode
  {
    var sorted := SortedUnique(ids);
    if c.key.AccountRow? && c.key.id in ids && c.mode == mode {
      var i :| 0 <= i < |sorted| && sorted[i] == c.key.id;
      assert AccountClaims(ids, mode)[i] == c;
    }
  }

  lemma CustomerClaimsOf(ids: seq<Id>, c: Claim)
    ensures c in CustomerClaims(ids) <==> c.key.CustomerLock? && c.key.id in ids && c.mode == Shared
  {
    var sorted := SortedUnique(ids);
    if c.key.CustomerLock? && c.key.id in ids && c.mode == Shared {
      var i :| 0 <= i < |sorted| && sorted[i] == c.key.id;
      assert CustomerClaims(ids)[i] == c;
    }
  }

  /** The claims of a script part lie in one range of ranks. */
  predicate Ranked(script: seq<Claim>, low: nat, high: nat) {
    forall i | 0 <= i < |script| :: low <= Rank(script[i].key) <= high
  }

  lemma Chain(a: seq<Claim>, b: seq<Claim>, low: nat, middle: nat, high: nat)
    requires Ascending(a) && Ascending(b) && low <= middle <= high
    requires Ranked(a, low, middle) && Ranked(b, middle + 1, high)
    ensures Ascending(a + b) && Ranked(a + b, low, high)
  {
  }

  lemma AccountsAscend(ids: seq<Id>, mode: Mode)
    ensures Ascending(AccountClaims(ids, mode)) && Ranked(AccountClaims(ids, mode), 1, 1)
  {
  }

  lemma CustomersAscend(ids: seq<Id>)
    ensures Ascending(CustomerClaims(ids)) && Ranked(CustomerClaims(ids), 4, 4)
  {
  }

  lemma CommandedAscends(actor: Id, command: int)
    ensures Ascending(Commanded(actor, command)) && Ranked(Commanded(actor, command), 1, 2)
  {
    AccountsAscend([actor], Shared);
    Chain(AccountClaims([actor], Shared), [Claim(CommandLock(command), Exclusive)], 1, 1, 2);
  }

  lemma SaveAscends(actor: Id, command: int, draft: Id, ids: seq<Id>)
    ensures Ascending(Commanded(actor, command) + [Claim(DraftLock(draft), Exclusive)] + CustomerClaims(ids))
  {
    CommandedAscends(actor, command);
    CustomersAscend(ids);
    Chain(Commanded(actor, command), [Claim(DraftLock(draft), Exclusive)], 1, 2, 3);
    Chain(Commanded(actor, command) + [Claim(DraftLock(draft), Exclusive)], CustomerClaims(ids), 1, 3, 4);
  }

  /** Every script is strictly ascending, so no transaction asks for one lock twice or upgrades one. */
  lemma ScriptsAscend(o: Operation)
    ensures Ascending(ScriptOf(o))
  {
    match o
    case Bootstrap(target) =>
      AccountsAscend([target], Exclusive);
      Chain([Claim(BootstrapLock, Exclusive)], AccountClaims([target], Exclusive), 0, 0, 1);
    case StaffCommand(actor, target) => AccountsAscend([actor, target], Exclusive);
    case AccountWork(user, mode) => AccountsAscend([user], mode);
    case CreateCustomer(actor, command) => CommandedAscends(actor, command);
    case UpdateCustomer(actor, command, customer) =>
      CommandedAscends(actor, command);
      Chain(Commanded(actor, command), [Claim(CustomerLock(customer), Exclusive)], 1, 2, 4);
    case CreateDraft(actor, command, linked) =>
      CommandedAscends(actor, command);
      CustomersAscend(Present(linked));
      Chain(Commanded(actor, command), CustomerClaims(Present(linked)), 1, 2, 4);
    case SaveDraft(actor, command, draft, linked, nowLinked) =>
      SaveAscends(actor, command, draft, Present(linked) + Present(nowLinked));
  }

  // --- The lock table ---

  /** A transaction that holds the first `held` claims of its script, and may be queued for the next one. */
  datatype Tx = Tx(script: seq<Claim>, held: nat, ticket: Option<nat>)

  datatype System = System(txs: map<Id, Tx>, clock: nat)

  datatype Event = Begin(id: Id, operation: Operation) | Ask(id: Id) | Grant(id: Id) | Leave(id: Id)

  predicate Conflict(a: Mode, b: Mode) {
    a == Exclusive || b == Exclusive
  }

  predicate Waiting(t: Tx) {
    t.ticket.Some? && t.held < |t.script|
  }

  predicate HoldsAgainst(u: Tx, c: Claim) {
    exists i :: 0 <= i < u.held && i < |u.script| && u.script[i].key == c.key && Conflict(u.script[i].mode, c.mode)
  }

  predicate QueuedAhead(u: Tx, t: Tx)
    requires Waiting(t)
  {
    Waiting(u) && u.script[u.held].key == t.script[t.held].key && u.ticket.value < t.ticket.value
  }

  /** t waits for u: u holds the wanted lock in a conflicting mode, or stands ahead in its queue. */
  predicate WaitsFor(s: System, t: Id, u: Id) {
    && t in s.txs && u in s.txs && t != u && Waiting(s.txs[t])
    && (HoldsAgainst(s.txs[u], s.txs[t].script[s.txs[t].held]) || QueuedAhead(s.txs[u], s.txs[t]))
  }

  predicate Blocked(s: System, t: Id) {
    exists u | u in s.txs :: WaitsFor(s, t, u)
  }

  function Next(s: System, e: Event): System {
    match e
    case Begin(id, operation) =>
      if id in s.txs then s else s.(txs := s.txs[id := Tx(ScriptOf(operation), 0, None)])
    case Ask(id) =>
      if id in s.txs && s.txs[id].ticket == None && s.txs[id].held < |s.txs[id].script|
      then System(s.txs[id := s.txs[id].(ticket := Some(s.clock))], s.clock + 1) else s
    case Grant(id) =>
      if id in s.txs && Waiting(s.txs[id]) && !Blocked(s, id)
      then s.(txs := s.txs[id := s.txs[id].(held := s.txs[id].held + 1, ticket := None)]) else s
    case Leave(id) => s.(txs := s.txs - {id})
  }

  function Run(s: System, events: seq<Event>): System {
    if events == [] then s else Next(Run(s, events[..|events| - 1]), events[|events| - 1])
  }

  predicate TxHolds(t: Tx, clock: nat) {
    && Ascending(t.script) && t.held <= |t.script|
    && (t.ticket.Some? ==> t.held < |t.script| && t.ticket.value < clock)
  }

  predicate TicketsDiffer(t: Tx, u: Tx) {
    t.ticket.Some? && u.ticket.Some? ==> t.ticket.value != u.ticket.value
  }

  /** No claim that u holds conflicts with a claim that t holds. */
  predicate Compatible(t: Tx, u: Tx) {
    forall i | 0 <= i < t.held && i < |t.script| :: !HoldsAgainst(u, t.script[i])
  }

  predicate Holds(s: System) {
    && (forall t | t in s.txs :: TxHolds(s.txs[t], s.clock))
    && (forall t, u | t in s.txs && u in s.txs && t != u ::
        TicketsDiffer(s.txs[t], s.txs[u]) && Compatible(s.txs[t], s.txs[u]))
  }

  lemma GrantKeepsCompatible(t: Tx, u: Tx)
    requires Waiting(t)
    requires Compatible(t, u) && Compatible(u, t) && !HoldsAgainst(u, t.script[t.held])
    ensures
      var granted := t.(held := t.held + 1, ticket := None);
      Compatible(granted, u) && Compatible(u, granted)
  {
    var granted := t.(held := t.held + 1, ticket := None);
    forall i | 0 <= i < u.held && i < |u.script| ensures !HoldsAgainst(granted, u.script[i]) {
      assert !HoldsAgainst(t, u.script[i]);
      if u.script[i].key == t.script[t.held].key {
        assert !Conflict(u.script[i].mode, t.script[t.held].mode);
      }
    }
  }

  /** Replacing one transaction keeps the table sound when the new one fits all the others. */
  lemma OneChanged(s: System, id: Id, t: Tx, clock: nat)
    requires Holds(s) && TxHolds(t, clock) && s.clock <= clock
    requires forall u | u in s.txs && u != id ::
      TicketsDiffer(t, s.txs[u]) && Compatible(t, s.txs[u]) && Compatible(s.txs[u], t)
    ensures Holds(System(s.txs[id := t], clock))
  {
  }

  lemma GrantHolds(s: System, id: Id)
    requires Holds(s) && Next(s, Grant(id)) != s
    ensures Holds(Next(s, Grant(id)))
  {
    var granted := s.txs[id].(held := s.txs[id].held + 1, ticket := None);
    forall u | u in s.txs && u != id ensures Compatible(granted, s.txs[u]) && Compatible(s.txs[u], granted) {
      assert !WaitsFor(s, id, u);
      GrantKeepsCompatible(s.txs[id], s.txs[u]);
    }
    OneChanged(s, id, granted, s.clock);
  }

  lemma NextHolds(s: System, e: Event)
    requires Holds(s)
    ensures Holds(Next(s, e))
  {
    if Next(s, e) != s {
      match e
      case Begin(id, operation) =>
        ScriptsAscend(operation);
        OneChanged(s, id, Tx(ScriptOf(operation), 0, None), s.clock);
      case Ask(id) =>
        OneChanged(s, id, s.txs[id].(ticket := Some(s.clock)), s.clock + 1);
      case Grant(id) => GrantHolds(s, id);
      case Leave(id) =>
    }
  }

  /** Over every run, conflicting claims on one lock never have two holders, and queue tickets stay distinct. */
  lemma {:induction false} RunHolds(events: seq<Event>)
    ensures Holds(Run(System(map[], 0), events))
  {
    if events != [] {
      RunHolds(events[..|events| - 1]);
      NextHolds(Run(System(map[], 0), events[..|events| - 1]), events[|events| - 1]);
    }
  }

  // --- No deadlock ---

  /** A later lock in the order, or the same lock with an earlier place in its queue. */
  predicate Further(t: Tx, u: Tx)
    requires Waiting(t) && Waiting(u)
  {
    Before(t.script[t.held].key, u.script[u.held].key)
    || (t.script[t.held].key == u.script[u.held].key && u.ticket.value < t.ticket.value)
  }

  lemma WaitingGoesFurther(s: System, t: Id, u: Id)
    requires Holds(s) && WaitsFor(s, t, u) && Waiting(s.txs[u])
    ensures Further(s.txs[t], s.txs[u])
  {
    if HoldsAgainst(s.txs[u], s.txs[t].script[s.txs[t].held]) {
      var i :| 0 <= i < s.txs[u].held && i < |s.txs[u].script| && s.txs[u].script[i].key == s.txs[t].script[s.txs[t].held].key;
      assert Before(s.txs[u].script[i].key, s.txs[u].script[s.txs[u].held].key);
    }
  }

  predicate Path(s: System, p: seq<Id>) {
    |p| >= 2 && forall i | 0 <= i < |p| - 1 :: WaitsFor(s, p[i], p[i + 1])
  }

  lemma {:induction false} PathGoesFurther(s: System, p: seq<Id>)
    requires Holds(s) && Path(s, p) && p[|p| - 1] in s.txs && Waiting(s.txs[p[|p| - 1]])
    ensures p[0] in s.txs && Waiting(s.txs[p[0]]) && Further(s.txs[p[0]], s.txs[p[|p| - 1]])
    decreases |p|
  {
    assert WaitsFor(s, p[0], p[1]);
    if |p| == 2 {
      WaitingGoesFurther(s, p[0], p[1]);
    } else {
      var rest := p[1..];
      forall i | 0 <= i < |rest| - 1 ensures WaitsFor(s, rest[i], rest[i + 1]) {
        var k := i + 1;
        assert WaitsFor(s, p[k], p[k + 1]);
      }
      PathGoesFurther(s, rest);
      WaitingGoesFurther(s, p[0], p[1]);
    }
  }

  /** Explicit locking is deadlock-free: after every run, no path of waiting transactions closes. */
  lemma NoCycle(events: seq<Event>, p: seq<Id>)
    requires Path(Run(System(map[], 0), events), p)
    ensures p[0] != p[|p| - 1]
  {
    var s := Run(System(map[], 0), events);
    RunHolds(events);
    assert WaitsFor(s, p[0], p[1]);
    if p[0] == p[|p| - 1] {
      PathGoesFurther(s, p);
      assert false;
    }
  }

  predicate Furthest(s: System, ids: set<Id>, m: Id) {
    m in ids && m in s.txs && Waiting(s.txs[m])
    && forall u | u in ids && u in s.txs && Waiting(s.txs[u]) && u != m :: !Further(s.txs[m], s.txs[u])
  }

  lemma {:induction false} SomeoneIsFurthest(s: System, ids: set<Id>) returns (m: Id)
    requires ids != {} && forall t | t in ids :: t in s.txs && Waiting(s.txs[t])
    ensures Furthest(s, ids, m)
    decreases |ids|
  {
    var t :| t in ids;
    if x :| x in ids && x != t {
      assert x in ids - {t};
      m := SomeoneIsFurthest(s, ids - {t});
      if Further(s.txs[m], s.txs[t]) { m := t; }
    } else {
      m := t;
    }
  }

  /** While transactions remain, at least one of them is not blocked. */
  lemma SomeoneCanMove(events: seq<Event>) returns (m: Id)
    requires Run(System(map[], 0), events).txs != map[]
    ensures m in Run(System(map[], 0), events).txs && !Blocked(Run(System(map[], 0), events), m)
  {
    var s := Run(System(map[], 0), events);
    RunHolds(events);
    if t :| t in s.txs && !Waiting(s.txs[t]) {
      m := t;
    } else {
      m := SomeoneIsFurthest(s, s.txs.Keys);
      forall u | u in s.txs ensures !WaitsFor(s, m, u) {
        if WaitsFor(s, m, u) {
          WaitingGoesFurther(s, m, u);
          assert false;
        }
      }
    }
  }
}

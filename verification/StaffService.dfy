/** The staff and bootstrap services as they run against the account table, with one retry. */
module StaffService {
  import opened Foundations
  import opened Accounts
  import opened StaffAuthority
  import opened StaffHistory

  /** What the database does to one attempt. */
  datatype Fault = Steady | Conflicted

  datatype Reply = Replied(outcome: Outcome) | DatabaseError

  class StaffTables {
    var users: map<Id, Account>
    var decisions: map<Id, Decision>
    var receipt: Option<Provisioning>
    ghost var log: seq<Decision>

    constructor (accounts: map<Id, Account>)
      requires UsersHold(accounts)
      ensures Valid() && Snapshot() == StaffDb(accounts, map[], None) && log == []
    {
      users, decisions, receipt, log := accounts, map[], None, [];
      new;
      InitialLedgerHolds(accounts);
    }

    function Snapshot(): StaffDb
      reads this
    {
      StaffDb(users, decisions, receipt)
    }

    ghost function History(): Ledger
      reads this
    {
      Ledger(Snapshot(), log)
    }

    ghost predicate Valid()
      reads this
    {
      LedgerHolds(History())
    }

    /** updateMany with the guard of buildStaffUpdateWhere; answers the number of matched rows. */
    method UpdateGuarded(target: Account, expected: nat, u: Update) returns (count: nat)
      modifies `users
      ensures count == if target.id in old(users) && UpdateMatches(old(users)[target.id], target, expected) then 1 else 0
      ensures users == if count == 1 then old(users)[target.id := Applied(old(users)[target.id], u)] else old(users)
    {
      if target.id in users && UpdateMatches(users[target.id], target, expected) {
        users := users[target.id := Applied(users[target.id], u)];
        return 1;
      }
      count := 0;
    }

    /** applyStaffCommand under its row locks. */
    method ApplyStaffCommand(actorId: Id, targetId: Id, request: Request, now: Instant) returns (o: Outcome)
      requires Valid()
      modifies this
      ensures (Snapshot(), o) == Command(old(Snapshot()), actorId, targetId, request, now)
      ensures Valid() && History() == Commit(old(History()), actorId, targetId, request, now) && DataAccepted(o)
    {
      CommitHolds(History(), actorId, targetId, request, now);
      AnswersAreAccepted(History(), actorId, targetId, request, now);
      if actorId !in users {
        return Denied(Unauthorized);
      }
      var actor := users[actorId];
      var refusal := RequireAdministrator(actor);
      if refusal.Some? {
        return Denied(refusal.value);
      }
      if targetId !in users {
        return Denied(StaffNotFound);
      }
      var target := users[targetId];
      if target.role == ADMIN {
        return Denied(AdminTarget);
      }
      if request.commandId in decisions {
        o := Replay(target, decisions[request.commandId], actorId, targetId, request);
        return;
      }
      if target.accessVersion != request.expected {
        return Denied(AccessConflict);
      }
      var resolution := Resolve(target, request.operation, request.requestedDepartment);
      match resolution
      case Unsupported => return Denied(TransitionConflict);
      case NoChange => return Answered(target, None, false);
      case Change(transition) =>
        if target.accessVersion >= MAX_VERSION {
          return Denied(TransitionConflict);
        }
        var count := UpdateGuarded(target, request.expected, UpdateData(transition, now, actorId));
        if count != 1 {
          return Denied(AccessConflict);
        }
        var decision := DecisionFor(actor, target, request, transition, now);
        decisions := decisions[request.commandId := decision];
        log := log + [decision];
        o := Answered(users[target.id], Some(decision), false);
    }

    /** What the database does when a transaction ends badly: every table is as it was at the start. */
    method Rollback(start: StaffDb, ghost earlier: seq<Decision>)
      modifies this
      ensures Snapshot() == start && log == earlier
    {
      users, decisions, receipt := start.users, start.decisions, start.receipt;
      log := earlier;
    }

    /**
     executeStaffCommand: a command-id or transaction conflict allows exactly one fresh attempt. A conflict strikes
     after the attempt has written, before its commit.
     */
    method ExecuteStaffCommand(actorId: Id, targetId: Id, request: Request, now: (Instant, Instant), weather: (Fault, Fault))
      returns (r: Reply)
      requires Valid()
      modifies this
      ensures Valid()
      ensures weather.0 == Steady ==>
        r.Replied? && (Snapshot(), r.outcome) == Command(old(Snapshot()), actorId, targetId, request, now.0)
      ensures weather == (Conflicted, Steady) ==>
        r.Replied? && (Snapshot(), r.outcome) == Command(old(Snapshot()), actorId, targetId, request, now.1)
      ensures weather == (Conflicted, Conflicted) ==> r == DatabaseError && Snapshot() == old(Snapshot()) && log == old(log)
    {
      var start := Snapshot();
      ghost var earlier := log;
      var o := ApplyStaffCommand(actorId, targetId, request, now.0);
      if weather.0 == Steady {
        return Replied(o);
      }
      Rollback(start, earlier);
      o := ApplyStaffCommand(actorId, targetId, request, now.1);
      if weather.1 == Steady {
        return Replied(o);
      }
      Rollback(start, earlier);
      r := DatabaseError;
    }

    /** The bootstrap, under its advisory lock and the lock of the nominated row. */
    method ApplyBootstrap(n: Nomination, now: Instant) returns (reason: Reason)
      requires Valid()
      modifies this
      ensures (Snapshot(), reason) == Bootstrap(old(Snapshot()), n, now)
      ensures Valid() && log == old(log)
    {
      NominateHolds(History(), n, now);
      var candidate := Found(users, n.userId);
      reason := Evaluate(candidate, |Administrators(users)|, receipt.Some?, n);
      if reason != ELIGIBLE {
        return;
      }
      var selected := candidate.value;
      var row := users[n.userId];
      if !(Candidate(row) && row.email == n.expectedEmail && row.accessVersion == n.expected) {
        return STALE_CANDIDATE;
      }
      users := users[n.userId := row.(role := ADMIN, status := ACTIVE, accessVersion := row.accessVersion + 1)];
      receipt := Some(Provisioning(selected.id, now, selected.accessVersion, selected.accessVersion + 1));
    }
  }
}

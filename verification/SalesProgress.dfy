/** Sales commands at the same time: who is served in an interleaving, and that some command can always go on. */
module SalesProgress {
  import opened Foundations
  import opened Accounts
  import opened DraftPieces
  import opened SalesModel
  import opened SalesConcurrency
  import opened SalesAnswers

  // --- Who is served ---

  lemma SuccessIsStaffs(db: Db, req: Request, stamp: Stamp, o: Outcome)
    requires o == Execute(db, req, stamp).1 && o.Success?
    ensures req.actorId in db.users && SellsNow(db.users[req.actorId])
  {
    OnlySalesStaffIsServed(db, req, stamp);
  }

  /** In every interleaving a command that succeeds does so for an actor who is sales staff at that very moment. */
  lemma InterleavedSuccessIsStaffs(s: System, id: TxId, pick: Id, rows: seq<PieceIdentity>)
    requires Holds(s) && id in s.txs && MoveOf(s.ledger.db, s.txs, id, pick, rows).Finish?
    requires MoveOf(s.ledger.db, s.txs, id, pick, rows).outcome.Success?
    ensures s.txs[id].req.actorId in s.ledger.db.users && SellsNow(s.ledger.db.users[s.txs[id].req.actorId])
  {
    FinishIsACommit(s.ledger, s.txs, s.used, id, pick, rows);
    SuccessIsStaffs(s.ledger.db, s.txs[id].req, s.txs[id].stamp, MoveOf(s.ledger.db, s.txs, id, pick, rows).outcome);
  }

  /** An attempt that fails is repeated once with a new identifier; a timeout or a second failure is a conflict. */
  lemma FailedAttemptTells(s: System, id: TxId, timeout: bool, stamp: Stamp)
    requires id in s.txs && stamp.freshId !in s.used
    ensures
      var after, t := SalesConcurrency.Next(s, Abort(id, timeout, stamp)), s.txs[id];
      && after.ledger == s.ledger
      && (forall u | u in s.txs && u != id :: u in after.txs && after.txs[u] == s.txs[u])
      && (if timeout || t.retried
          then after.txs.Keys == s.txs.Keys - {id} && after.answers == s.answers + [Answer(t.req, Failure(TransactionConflict))]
          else after.txs.Keys == s.txs.Keys && after.txs[id] == Tx(t.req, stamp, true, Begun) && after.answers == s.answers)
  {
  }

  // --- Somebody goes on ---

  predicate Stuck(db: Db, txs: map<TxId, Tx>, id: TxId, pick: Id, rows: seq<PieceIdentity>)
    requires id in txs
  {
    MoveOf(db, txs, id, pick, rows).Wait?
  }

  /** How far a command has come: the later it is, the fewer locks it still asks for. */
  function Depth(t: Tx): nat {
    match t.pc
    case Identified(_) => 1
    case Working(_) => 2
    case LinkingCustomers(_, _) => 3
    case DraftHeld(_, _, _) => 3
    case _ => 4
  }

  /** Every queried row of the draft's pieces, in some order. */
  lemma {:induction false} RowsCanBeListed(t: PieceTable, wanted: set<Id>) returns (rows: seq<PieceIdentity>)
    requires wanted <= t.Keys
    ensures DraftPieces.Lists(rows, t, wanted)
    decreases |wanted|
  {
    if wanted == {} {
      rows := [];
    } else {
      var x :| x in wanted;
      var fewer := RowsCanBeListed(t, wanted - {x});
      rows := fewer + [Identity(t, x)];
      assert rows[|fewer|] == Identity(t, x);
      assert forall r | r in rows :: r in fewer || r == Identity(t, x);
      forall id | id in wanted ensures Identity(t, id) in rows {
        if id != x { assert Identity(t, id) in fewer; }
      }
    }
  }

  lemma RowsOfPlan(t: PieceTable, capture: seq<PieceCapture>, d: Id) returns (rows: seq<PieceIdentity>)
    ensures DraftPieces.Lists(rows, t, Queried(t, Ids(capture), d))
  {
    rows := RowsCanBeListed(t, Queried(t, Ids(capture), d));
  }

  /** A command at the bottom of the order waits for nobody, once its rows are read. */
  lemma DeepestGoesOn(db: Db, txs: map<TxId, Tx>, id: TxId) returns (rows: seq<PieceIdentity>)
    requires id in txs && ReadsHold(txs[id], db) && Depth(txs[id]) == 4
    ensures !Stuck(db, txs, id, 0, rows)
  {
    var t := txs[id];
    if t.pc.Imaged? { rows := RowsOfPlan(db.pieces, t.req.intent.draft.pieces, DraftIdOf(t)); } else { rows := []; }
  }

  lemma SomeMissing(needed: set<Id>, held: set<Id>) returns (x: Id)
    requires !(needed <= held)
    ensures x in needed - held
  {
    x :| x in needed && x !in held;
  }

  lemma LinkerGoesOn(db: Db, txs: map<TxId, Tx>, id: TxId) returns (pick: Id, rows: seq<PieceIdentity>)
    requires id in txs && ReadsHold(txs[id], db) && Depth(txs[id]) == 3
    requires forall u | u in txs && u != id :: Depth(txs[u]) <= 3
    ensures !Stuck(db, txs, id, pick, rows)
  {
    var t := txs[id];
    var needed := CapturedCustomer(t.req.intent) + if t.pc.DraftHeld? then Linked(t.pc.row.header.customerId) else {};
    if needed <= t.pc.shared {
      pick := 0;
      rows := RowsOfPlan(db.pieces, t.req.intent.draft.pieces, DraftIdOf(t));
    } else {
      pick := SomeMissing(needed, t.pc.shared);
      rows := [];
      assert CustomerShareable(txs, id, pick);
    }
  }

  lemma WorkerGoesOn(db: Db, txs: map<TxId, Tx>, id: TxId)
    requires id in txs && ReadsHold(txs[id], db) && Depth(txs[id]) == 2
    requires forall u | u in txs && u != id :: Depth(txs[u]) <= 2
    ensures !Stuck(db, txs, id, 0, [])
  {
    assert forall d :: DraftFree(txs, id, d);
    assert forall c :: CustomerFree(txs, id, c);
  }

  lemma CallerGoesOn(db: Db, txs: map<TxId, Tx>, id: TxId)
    requires id in txs && Depth(txs[id]) == 1
    requires forall u | u in txs && u != id :: Depth(txs[u]) <= 1
    ensures !Stuck(db, txs, id, 0, [])
  {
    assert CommandFree(txs, id, txs[id].req.commandId);
  }

  lemma {:induction false} SomeoneIsDeepest(txs: map<TxId, Tx>, ids: set<TxId>) returns (id: TxId)
    requires ids <= txs.Keys && ids != {}
    ensures id in ids && forall u | u in ids :: Depth(txs[u]) <= Depth(txs[id])
    decreases |ids|
  {
    var x :| x in ids;
    if ids == {x} {
      id := x;
    } else {
      id := SomeoneIsDeepest(txs, ids - {x});
      if Depth(txs[x]) > Depth(txs[id]) { id := x; }
    }
  }

  lemma SomeoneIsFree(s: System) returns (id: TxId, pick: Id, rows: seq<PieceIdentity>)
    requires Holds(s) && s.txs != map[]
    ensures id in s.txs && !Stuck(s.ledger.db, s.txs, id, pick, rows)
  {
    assert s.txs.Keys != {};
    var db := s.ledger.db;
    id := SomeoneIsDeepest(s.txs, s.txs.Keys);
    assert ReadsHold(s.txs[id], db);
    pick, rows := 0, [];
    match Depth(s.txs[id])
    case 4 => rows := DeepestGoesOn(db, s.txs, id);
    case 3 => pick, rows := LinkerGoesOn(db, s.txs, id);
    case 2 => WorkerGoesOn(db, s.txs, id);
    case _ => CallerGoesOn(db, s.txs, id);
  }

  /** The other command holds what this one asks for next. */
  predicate Holding(u: Tx, t: Tx, pick: Id) {
    match t.pc
    case Identified(_) => HoldsCommand(u) && u.req.commandId == t.req.commandId
    case Working(_) =>
      (t.req.intent.SaveDraft? && HoldsDraft(u, t.req.intent.draftId))
      || (t.req.intent.UpdateCustomer?
          && (HoldsCustomer(u, t.req.intent.customerId) || t.req.intent.customerId in SharedCustomers(u)))
    case _ => HoldsCustomer(u, pick)
  }

  /** A command that cannot go on waits for one that holds its command id, its draft or its customer, and for nothing else. */
  lemma WaitsOnlyForAHolder(db: Db, txs: map<TxId, Tx>, id: TxId, pick: Id, rows: seq<PieceIdentity>)
    requires id in txs && ReadsHold(txs[id], db) && Stuck(db, txs, id, pick, rows)
    requires txs[id].pc.LinkingCustomers? ==> pick in CapturedCustomer(txs[id].req.intent) - txs[id].pc.shared
    requires txs[id].pc.DraftHeld? ==>
      pick in CapturedCustomer(txs[id].req.intent) + Linked(txs[id].pc.row.header.customerId) - txs[id].pc.shared
    requires !txs[id].pc.Imaged?
    ensures exists u | u in txs && u != id :: Holding(txs[u], txs[id], pick)
  {
  }

  lemma GoesToAnotherPlace(db: Db, txs: map<TxId, Tx>, id: TxId, pick: Id, rows: seq<PieceIdentity>)
    requires id in txs && MoveOf(db, txs, id, pick, rows).Go?
    ensures MoveOf(db, txs, id, pick, rows).pc != txs[id].pc
  {
  }

  /** Whatever is going on, one of the outstanding commands takes its next step when it is let to: none waits in a circle. */
  lemma SomeoneGoesOn(s: System) returns (id: TxId, pick: Id, rows: seq<PieceIdentity>)
    requires Holds(s) && s.txs != map[]
    ensures id in s.txs && SalesConcurrency.Next(s, Advance(id, pick, rows)).txs != s.txs
  {
    id, pick, rows := SomeoneIsFree(s);
    StepIsTaken(s, id, pick, rows, SalesConcurrency.Next(s, Advance(id, pick, rows)));
  }

  lemma StepIsTaken(s: System, id: TxId, pick: Id, rows: seq<PieceIdentity>, after: System)
    requires id in s.txs && !Stuck(s.ledger.db, s.txs, id, pick, rows) && after == SalesConcurrency.Next(s, Advance(id, pick, rows))
    ensures after.txs != s.txs
  {
    if MoveOf(s.ledger.db, s.txs, id, pick, rows).Go? {
      GoesToAnotherPlace(s.ledger.db, s.txs, id, pick, rows);
      assert after.txs[id] != s.txs[id];
    } else {
      assert id !in after.txs;
    }
  }

  /** An accepted command starts without a lock; account rows are written while no command has locked them. */
  lemma StartAndWritesTell(s: System, id: TxId, req: Request, stamp: Stamp, a: Account, user: Id)
    ensures id !in s.txs && AcceptedIntent(req.intent) && stamp.freshId !in s.used ==>
      SalesConcurrency.Next(s, Begin(id, req, stamp)) ==
        s.(txs := s.txs[id := Tx(req, stamp, false, Begun)], used := s.used + {stamp.freshId})
    ensures (forall u | u in s.txs :: s.txs[u].pc.Begun? || s.txs[u].req.actorId != a.id) ==>
      SalesConcurrency.Next(s, AccountWritten(a)).ledger.db.users == s.ledger.db.users[a.id := a]
    ensures (forall u | u in s.txs :: s.txs[u].pc.Begun? || s.txs[u].req.actorId != user) ==>
      SalesConcurrency.Next(s, AccountDropped(user)).ledger.db.users == s.ledger.db.users - {user}
  {
  }
}

/**
 The sales services as they run against the tables: statement by statement, with rollback and
 one retry. Every method is proved to do exactly what the atomic meaning of its command says.
 */
module SalesDatabase {
  import opened Foundations
  import opened Accounts
  import opened DraftPieces
  import opened PieceRewrite
  import opened SalesModel
  import opened SalesHistory
  import opened SalesTheorems
  import LockOrder

  datatype WorkResult = Worked(before: Option<Image>, after: Image) | Failed(error: SalesError)

  /** What the database does to one attempt: nothing, a lock timeout, or a transaction or command-id conflict. */
  datatype Fault = Steady | LockTimeout | Conflicted

  /** The work ended as w says it must. */
  predicate EndsAs(r: WorkResult, w: Work, before: Db, after: Db) {
    match w
    case Refused(e) => r == Failed(e)
    case Done(_, _, _, b, a) => r == Worked(b, a) && after == TablesAfter(before, w)
  }

  /** The images of finished draft work; a row that mapDraft rejects is an internal error. */
  function Answer(before: Option<Image>, mapped: Option<DraftDto>): WorkResult {
    match mapped case None => Failed(InternalError) case Some(d) => Worked(before, DraftImage(d))
  }

  function WriteError(r: WriteResult): SalesError {
    match r case PositionTaken => InternalError case _ => DraftNotFound
  }

  lemma TablesAreShiftable(db: Db, d: Id)
    requires TablesHold(db)
    ensures Shiftable(db.pieces, d)
  {
    forall p | p in db.pieces && db.pieces[p].removedAt == None ensures NumberedPiece(db.pieces, p) {
      NumberedDraftPieces(db, p);
    }
    NumberedPiecesAreUnique(db.pieces);
    forall id | id in db.pieces && Active(db.pieces, id, d) ensures 1 <= db.pieces[id].position <= MAX_DRAFT_PIECES {
      assert NumberedPiece(db.pieces, id);
    }
  }

  lemma NumberedPiecesAreUnique(t: PieceTable)
    requires forall p | p in t && t[p].removedAt == None :: NumberedPiece(t, p)
    ensures UniquePositions(t)
  {
    forall a, b | a in t && b in t && a != b && t[a].removedAt == None && t[b].removedAt == None && t[a].draftId == t[b].draftId
      ensures t[a].position != t[b].position
    {
      assert NumberedPiece(t, a) && NumberedPiece(t, b);
    }
  }

  predicate NumberedPiece(t: PieceTable, p: Id)
    requires p in t
  {
    var ids := InOrder(t, ActiveIds(t, t[p].draftId));
    1 <= t[p].position <= |ids| && |ids| <= MAX_DRAFT_PIECES && ids[t[p].position - 1] == p
  }

  lemma NumberedDraftPieces(db: Db, p: Id)
    requires TablesHold(db) && p in db.pieces && db.pieces[p].removedAt == None
    ensures NumberedPiece(db.pieces, p)
  {
    var d := db.pieces[p].draftId;
    var ids := InOrder(db.pieces, ActiveIds(db.pieces, d));
    assert DraftNumbered(db.pieces, d);
    assert p in ActiveIds(db.pieces, d);
    assert p in ToSet(ids);
    var i :| 0 <= i < |ids| && ids[i] == p;
  }

  class SalesTables {
    var users: map<Id, Account>
    var customers: map<Id, Customer>
    var drafts: map<Id, DraftRow>
    var commands: map<Id, Record>
    const pieceRows: PieceRows
    ghost var log: seq<Record>

    constructor (accounts: map<Id, Account>)
      requires forall u | u in accounts :: accounts[u].id == u
      ensures Valid() && fresh(pieceRows) && Snapshot() == Db(accounts, map[], map[], map[], map[]) && log == []
    {
      users, customers, drafts, commands, log := accounts, map[], map[], map[], [];
      pieceRows := new PieceRows();
      new;
      InitialLedgerHolds(accounts);
    }

    function Snapshot(): Db
      reads this, pieceRows
    {
      Db(users, customers, drafts, pieceRows.rows, commands)
    }

    /** The tables and the retained history agree in every way that SalesHistory states. */
    ghost predicate Valid()
      reads this, pieceRows
    {
      LedgerHolds(Ledger(Snapshot(), log))
    }

    /** lockCustomers: one row lock after the other, in ascending order of the distinct ids. */
    method LockCustomers(ids: seq<Id>) returns (found: bool)
      ensures found <==> CustomersExist(customers, ToSet(ids))
    {
      var sorted := LockOrder.SortedUnique(ids);
      for i := 0 to |sorted|
        invariant forall k | 0 <= k < i :: sorted[k] in customers
      {
        if sorted[i] !in customers {
          assert sorted[i] in ids;
          return false;
        }
      }
      assert forall id | id in ids :: id in sorted;
      found := true;
    }

    /** The rows planPieces reads, in whatever order the database returns them. */
    method QueryPieces(d: Id, ids: seq<Id>) returns (rows: seq<PieceIdentity>)
      ensures DraftPieces.Lists(rows, pieceRows.rows, Queried(pieceRows.rows, ids, d))
    {
      var wanted := Queried(pieceRows.rows, ids, d);
      var todo := wanted;
      rows := [];
      while todo != {}
        invariant todo <= wanted
        invariant DraftPieces.Lists(rows, pieceRows.rows, wanted - todo)
        decreases |todo|
      {
        var id :| id in todo;
        ListOneMore(rows, pieceRows.rows, wanted - todo, id);
        assert wanted - todo + {id} == wanted - (todo - {id});
        rows := rows + [Identity(pieceRows.rows, id)];
        todo := todo - {id};
      }
      assert wanted - todo == wanted;
    }

    method PlanDraftPieces(d: Id, capture: seq<PieceCapture>) returns (refusal: Option<SalesError>, plan: PiecePlan)
      ensures match PlanPieces(pieceRows.rows, d, capture)
        case PlanRefused(e) => refusal == Some(e)
        case Planned => refusal == None && PlanHolds(pieceRows.rows, Ids(capture), d, plan) && NoneTaken(pieceRows.rows, plan.newIds)
    {
      plan := PiecePlan([], [], []);
      if |capture| < 1 || |capture| > MAX_DRAFT_PIECES {
        return Some(InvalidPieces), plan;
      }
      var ids := Ids(capture);
      var existing := QueryPieces(d, ids);
      var result := ClassifyDraftPieces(ids, existing, d);
      QueriedRowsSuffice(pieceRows.rows, existing, ids, d);
      match result
      case DuplicatePiece => return Some(InvalidPieces), plan;
      case ForeignPiece => return Some(DraftNotFound), plan;
      case RemovedPiece => return Some(DraftPieceConflict), plan;
      case ValidPlan(p) =>
        ValidPlanHolds(pieceRows.rows, existing, ids, d);
        return None, p;
    }

    method CreateCustomer(c: CustomerCapture, stamp: Stamp) returns (r: WorkResult)
      modifies `customers
      ensures EndsAs(r, PerformCreateCustomer(old(Snapshot()), c, stamp), old(Snapshot()), Snapshot())
    {
      if PhoneTaken(customers, c.phone, stamp.freshId) {
        return Failed(CustomerPhoneConflict);
      }
      if stamp.freshId in customers {
        return Failed(InternalError);
      }
      var row := Customer(stamp.freshId, c.name, c.phone, c.email, c.address, c.notes, 1, stamp.now, stamp.now);
      customers := customers[stamp.freshId := row];
      r := Worked(None, CustomerImage(row));
    }

    method UpdateCustomer(id: Id, expected: nat, patch: CustomerPatch, stamp: Stamp) returns (r: WorkResult)
      modifies `customers
      ensures EndsAs(r, PerformUpdateCustomer(old(Snapshot()), id, expected, patch, stamp), old(Snapshot()), Snapshot())
    {
      if id !in customers {
        return Failed(CustomerNotFound);
      }
      var before := customers[id];
      if before.version != expected || before.version == MAX_VERSION {
        return Failed(CustomerVersionConflict);
      }
      var data := before.(version := before.version + 1, updatedAt := stamp.now);
      if patch.name.Put? {
        data := data.(name := patch.name.value);
      }
      if patch.phone.Put? {
        data := data.(phone := patch.phone.value);
        if PhoneTaken(customers, data.phone, id) {
          return Failed(CustomerPhoneConflict);
        }
      }
      if patch.email.Put? {
        data := data.(email := patch.email.value);
      }
      if patch.address.Put? {
        data := data.(address := patch.address.value);
      }
      if patch.notes.Put? {
        data := data.(notes := patch.notes.value);
      }
      customers := customers[id := data];
      r := Worked(Some(CustomerImage(before)), CustomerImage(customers[id]));
    }

    method CreateDraft(actor: Account, c: DraftCapture, stamp: Stamp) returns (r: WorkResult)
      requires TablesHold(Snapshot())
      modifies `drafts, pieceRows
      ensures EndsAs(r, PerformCreateDraft(old(Snapshot()), actor, c, stamp), old(Snapshot()), Snapshot())
    {
      var id := stamp.freshId;
      var found := LockCustomers(LockOrder.Present(c.customerId));
      PresentIsLinked(c.customerId);
      if !found {
        return Failed(CustomerNotFound);
      }
      var refusal, plan := PlanDraftPieces(id, c.pieces);
      if refusal.Some? {
        return Failed(refusal.value);
      }
      var header := StoreHeader(c);
      if header == None {
        return Failed(InvalidHeader);
      }
      if id in drafts {
        return Failed(InternalError);
      }
      drafts := drafts[id := DraftRow(actor.id, header.value, 1, stamp.now, stamp.now)];
      TablesAreShiftable(old(Snapshot()), id);
      var written := pieceRows.WritePieces(id, c.pieces, plan, stamp.now);
      if written != PiecesWritten {
        return Failed(WriteError(written));
      }
      var after := MapDraft(customers, pieceRows.rows, id, drafts[id], stamp.ownerAfter);
      r := Answer(None, after);
    }

    method SaveDraft(actor: Account, id: Id, expected: nat, c: DraftCapture, stamp: Stamp) returns (r: WorkResult)
      requires TablesHold(Snapshot())
      modifies `drafts, pieceRows
      ensures EndsAs(r, PerformSaveDraft(old(Snapshot()), actor, id, expected, c, stamp), old(Snapshot()), Snapshot())
    {
      if id !in drafts || !MayOpen(actor, drafts[id]) {
        return Failed(DraftNotFound);
      }
      var row := drafts[id];
      if row.version != expected || row.version == MAX_VERSION {
        return Failed(DraftVersionConflict);
      }
      var found := LockCustomers(LockOrder.Present(row.header.customerId) + LockOrder.Present(c.customerId));
      PresentPairIsLinked(row.header.customerId, c.customerId);
      if !found {
        return Failed(CustomerNotFound);
      }
      var before := MapDraft(customers, pieceRows.rows, id, row, stamp.ownerBefore);
      if before == None {
        return Failed(InternalError);
      }
      var refusal, plan := PlanDraftPieces(id, c.pieces);
      if refusal.Some? {
        return Failed(refusal.value);
      }
      r := ReplaceDraft(actor, id, expected, c, plan, DraftImage(before.value), stamp);
      if StoreHeader(c).Some? {
        PlannedSaveIsDone(old(Snapshot()), actor, id, expected, c, before.value, stamp);
      }
    }

    /** The writing half of a save: the piece rows, then the guarded update of the draft row. */
    method ReplaceDraft(actor: Account, id: Id, expected: nat, c: DraftCapture, plan: PiecePlan, before: Image, stamp: Stamp)
      returns (r: WorkResult)
      requires TablesHold(Snapshot()) && id in drafts && drafts[id].version == expected && MayOpen(actor, drafts[id])
      requires PlanHolds(pieceRows.rows, Ids(c.pieces), id, plan) && NoneTaken(pieceRows.rows, plan.newIds)
      modifies `drafts, pieceRows
      ensures StoreHeader(c) == None ==> r == Failed(InvalidHeader)
      ensures StoreHeader(c).Some? ==>
        EndsAs(r, FinishDraft(old(Snapshot()), id, SavedRow(old(drafts)[id], c, stamp.now), c, Some(before), stamp),
          old(Snapshot()), Snapshot())
    {
      TablesAreShiftable(Snapshot(), id);
      var written := pieceRows.WritePieces(id, c.pieces, plan, stamp.now);
      if written != PiecesWritten {
        return Failed(WriteError(written));
      }
      var header := StoreHeader(c);
      if header == None {
        return Failed(InvalidHeader);
      }
      if drafts[id].version != expected || !MayOpen(actor, drafts[id]) {
        return Failed(DraftVersionConflict);
      }
      var row := drafts[id].(header := header.value, version := drafts[id].version + 1, updatedAt := stamp.now);
      drafts := drafts[id := row];
      var after := MapDraft(customers, pieceRows.rows, id, row, stamp.ownerAfter);
      assert row == SavedRow(old(drafts)[id], c, stamp.now);
      MappedAfterWriting(old(Snapshot()), Snapshot(), id, row, c, Some(before), after, stamp);
      r := Answer(Some(before), after);
    }

    method Work(actor: Account, intent: Intent, stamp: Stamp) returns (r: WorkResult)
      requires TablesHold(Snapshot())
      modifies `customers, `drafts, pieceRows
      ensures EndsAs(r, Perform(old(Snapshot()), actor, intent, stamp), old(Snapshot()), Snapshot())
    {
      match intent
      case CreateCustomer(c) => r := CreateCustomer(c, stamp);
      case UpdateCustomer(id, v, p) => r := UpdateCustomer(id, v, p, stamp);
      case CreateDraft(c) => r := CreateDraft(actor, c, stamp);
      case SaveDraft(id, v, c) => r := SaveDraft(actor, id, v, c, stamp);
    }

    /** One attempt: a transaction that either commits its tables and its record, or leaves everything as it was. */
    method Attempt(req: Request, stamp: Stamp) returns (o: Outcome)
      requires Valid() && AcceptedIntent(req.intent)
      modifies this, pieceRows
      ensures (Snapshot(), o) == Execute(old(Snapshot()), req, stamp)
      ensures Valid() && Ledger(Snapshot(), log) == Commit(Ledger(old(Snapshot()), old(log)), req, stamp)
    {
      ghost var ledger := Ledger(Snapshot(), log);
      CommitHolds(ledger, req, stamp);
      var admission := Admit(users, req.actorId);
      if admission.Denied? {
        return Failure(admission.error);
      }
      if req.commandId in commands {
        var retained := commands[req.commandId];
        if !SameBinding(retained, req) {
          return Failure(CommandConflict);
        }
        if !Visible(Snapshot(), admission.actor, retained) {
          return Failure(CommandNotFound);
        }
        o := MapResult(retained, true);
        return;
      }
      o := Transact(admission.actor, req, stamp);
    }

    /** The work, the record, its mapping; and the rollback when one of them fails. */
    method Transact(actor: Account, req: Request, stamp: Stamp) returns (o: Outcome)
      requires Valid() && req.commandId !in commands
      modifies this, pieceRows
      ensures (Snapshot(), o) == Fulfil(old(Snapshot()), actor, req, stamp)
      ensures log == if req.commandId in commands then old(log) + [commands[req.commandId]] else old(log)
    {
      var earlierCustomers, earlierDrafts, earlierPieces := customers, drafts, pieceRows.rows;
      var result := Work(actor, req.intent, stamp);
      if result.Failed? {
        customers, drafts, pieceRows.rows := earlierCustomers, earlierDrafts, earlierPieces;
        return Failure(result.error);
      }
      var stored := RecordOf(req, actor, result.before, result.after, stamp.now);
      o := MapResult(stored, false);
      if o.Failure? {
        customers, drafts, pieceRows.rows := earlierCustomers, earlierDrafts, earlierPieces;
        return;
      }
      commands := commands[req.commandId := stored];
      log := log + [stored];
    }

    /** What the database does when a transaction ends badly: every table is as it was at the start. */
    method Rollback(start: Db, ghost earlier: seq<Record>)
      modifies this, pieceRows
      ensures Snapshot() == start && log == earlier
    {
      users, customers, drafts, commands := start.users, start.customers, start.drafts, start.commands;
      pieceRows.rows := start.pieces;
      log := earlier;
    }

    /**
     The executor: a conflict is retried once, a second conflict or a lock timeout is reported. `weather` says what
     the database does to attempt 0 and attempt 1; a fault strikes after the attempt has written, before its commit.
     */
    method ExecuteCommand(req: Request, stamps: (Stamp, Stamp), weather: (Fault, Fault)) returns (o: Outcome)
      requires Valid() && AcceptedIntent(req.intent)
      modifies this, pieceRows
      ensures Valid()
      ensures weather.0 == Steady ==> (Snapshot(), o) == Execute(old(Snapshot()), req, stamps.0)
      ensures weather.0 == Conflicted && weather.1 == Steady ==> (Snapshot(), o) == Execute(old(Snapshot()), req, stamps.1)
      ensures weather.0 == LockTimeout || (weather.0 == Conflicted && weather.1 != Steady) ==>
        Snapshot() == old(Snapshot()) && log == old(log) && o == Failure(TransactionConflict)
    {
      var retried := false;
      while true
        invariant Valid() && Snapshot() == old(Snapshot()) && log == old(log)
        invariant retried ==> weather.0 == Conflicted
        decreases if retried then 0 else 1
      {
        var fault, stamp := if retried then weather.1 else weather.0, if retried then stamps.1 else stamps.0;
        var start := Snapshot();
        ghost var earlier := log;
        o := Attempt(req, stamp);
        if fault == Steady {
          return;
        }
        Rollback(start, earlier);
        if fault == Conflicted && !retried {
          retried := true;
          continue;
        }
        return Failure(TransactionConflict);
      }
    }

    /** The observation of a command, on one snapshot, with the same single retry. */
    method Get(actorId: Id, commandId: Id, weather: (Fault, Fault)) returns (o: Outcome)
      ensures weather.0 == Steady || (weather.0 == Conflicted && weather.1 == Steady) ==> o == Observe(Snapshot(), actorId, commandId)
      ensures weather.0 == LockTimeout || (weather.0 == Conflicted && weather.1 != Steady) ==> o == Failure(TransactionConflict)
    {
      var retried := false;
      while true
        invariant retried ==> weather.0 == Conflicted
        decreases if retried then 0 else 1
      {
        var fault := if retried then weather.1 else weather.0;
        if fault == Conflicted && !retried {
          retried := true;
          continue;
        }
        if fault != Steady {
          return Failure(TransactionConflict);
        }
        var admission := Admit(users, actorId);
        if admission.Denied? {
          return Failure(admission.error);
        }
        if commandId !in commands || commands[commandId].actorId != admission.actor.id {
          return Failure(CommandNotFound);
        }
        if !Visible(Snapshot(), admission.actor, commands[commandId]) {
          return Failure(CommandNotFound);
        }
        return MapResult(commands[commandId], true);
      }
    }
  }

  lemma MappedAfterWriting(
    before: Db, after: Db, id: Id, row: DraftRow, c: DraftCapture, image: Option<Image>, mapped: Option<DraftDto>, stamp: Stamp)
    requires after == before.(drafts := before.drafts[id := row], pieces := Rewritten(before.pieces, id, c.pieces, stamp.now))
    requires mapped == MapDraft(after.customers, after.pieces, id, row, stamp.ownerAfter)
    ensures EndsAs(Answer(image, mapped), FinishDraft(before, id, row, c, image, stamp), before, after)
  {
  }

  lemma ListOneMore(rows: seq<PieceIdentity>, t: PieceTable, done: set<Id>, id: Id)
    requires DraftPieces.Lists(rows, t, done) && id in t && id !in done
    ensures DraftPieces.Lists(rows + [Identity(t, id)], t, done + {id})
  {
    var more := rows + [Identity(t, id)];
    assert forall r | r in more :: r in rows || r == Identity(t, id);
    assert more[|rows|] == Identity(t, id);
  }

  lemma PresentIsLinked(a: Option<Id>)
    ensures ToSet(LockOrder.Present(a)) == Linked(a)
  {
  }

  lemma PresentPairIsLinked(a: Option<Id>, b: Option<Id>)
    ensures ToSet(LockOrder.Present(a) + LockOrder.Present(b)) == Linked(a) + Linked(b)
  {
  }
}

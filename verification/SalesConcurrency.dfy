/**
 Any number of sales commands at the same time. A transaction takes its locks and reads step by
 step; the others run in between. Uncommitted writes are private until the commit, a conflict may
 end any attempt, and one retry follows. Every interleaving is shown to be a serial run.
 */
module SalesConcurrency {
  import opened Foundations
  import opened Accounts
  import opened DraftPieces
  import opened PieceRewrite
  import opened SalesModel
  import opened SalesHistory
  import opened SalesTheorems
  import SalesDatabase

  type TxId = nat

  /** Where an attempt stands, with what it has read so far. The locks it holds follow from this. */
  datatype Pc =
    | Begun
    | Identified(actor: Account)
    | Commanding(actor: Account)
    | Replaying(actor: Account, retained: Record)
    | Working(actor: Account)
    | CustomerHeld(actor: Account, customer: Customer)
    | LinkingCustomers(actor: Account, shared: set<Id>)
    | DraftHeld(actor: Account, row: DraftRow, shared: set<Id>)
    | Imaged(actor: Account, row: DraftRow, before: DraftDto)
    | PiecesPlanned(actor: Account, base: Option<Base>, plan: PiecePlan)

  /** The draft row and the before-image that a save has read. */
  datatype Base = Base(row: DraftRow, before: DraftDto)

  datatype Tx = Tx(req: Request, stamp: Stamp, retried: bool, pc: Pc)

  datatype Answer = Answer(req: Request, outcome: Outcome)

  datatype System = System(ledger: Ledger, txs: map<TxId, Tx>, used: set<Id>, answers: seq<Answer>)

  /** A step of the environment or of one transaction. The rows are what planPieces reads, in database order. */
  datatype Event =
    | Begin(id: TxId, req: Request, stamp: Stamp)
    | Advance(id: TxId, pick: Id, rows: seq<PieceIdentity>)
    | Abort(id: TxId, timeout: bool, stamp: Stamp)
    | AccountWritten(account: Account)
    | AccountDropped(user: Id)

  // --- The locks of a transaction ---

  predicate SharesAccount(t: Tx, user: Id) {
    !t.pc.Begun? && t.req.actorId == user
  }

  predicate HoldsCommand(t: Tx) {
    !t.pc.Begun? && !t.pc.Identified?
  }

  function DraftIdOf(t: Tx): Id {
    match t.req.intent case SaveDraft(d, _, _) => d case _ => t.stamp.freshId
  }

  predicate HoldsDraft(t: Tx, d: Id) {
    t.req.intent.SaveDraft? && d == t.req.intent.draftId && (t.pc.DraftHeld? || t.pc.Imaged? || t.pc.PiecesPlanned?)
  }

  predicate HoldsCustomer(t: Tx, c: Id) {
    t.req.intent.UpdateCustomer? && c == t.req.intent.customerId && t.pc.CustomerHeld?
  }

  function CapturedCustomer(i: Intent): set<Id> {
    match i case CreateDraft(c) => Linked(c.customerId) case SaveDraft(_, _, c) => Linked(c.customerId) case _ => {}
  }

  function SharedCustomers(t: Tx): set<Id> {
    match t.pc
    case LinkingCustomers(_, shared) => shared
    case DraftHeld(_, _, shared) => shared
    case Imaged(_, row, _) => Linked(row.header.customerId) + CapturedCustomer(t.req.intent)
    case PiecesPlanned(_, None, _) => CapturedCustomer(t.req.intent)
    case PiecesPlanned(_, Some(b), _) => Linked(b.row.header.customerId) + CapturedCustomer(t.req.intent)
    case _ => {}
  }

  predicate CommandFree(txs: map<TxId, Tx>, id: TxId, c: Id) {
    forall u | u in txs && u != id :: !(HoldsCommand(txs[u]) && txs[u].req.commandId == c)
  }

  predicate DraftFree(txs: map<TxId, Tx>, id: TxId, d: Id) {
    forall u | u in txs && u != id :: !HoldsDraft(txs[u], d)
  }

  predicate CustomerShareable(txs: map<TxId, Tx>, id: TxId, c: Id) {
    forall u | u in txs && u != id :: !HoldsCustomer(txs[u], c)
  }

  predicate CustomerFree(txs: map<TxId, Tx>, id: TxId, c: Id) {
    forall u | u in txs && u != id :: !HoldsCustomer(txs[u], c) && c !in SharedCustomers(txs[u])
  }

  predicate AccountFree(txs: map<TxId, Tx>, user: Id) {
    forall u | u in txs :: !SharesAccount(txs[u], user)
  }

  // --- One step of one transaction ---

  datatype Move = Wait | Go(pc: Pc) | Finish(db: Db, outcome: Outcome)

  function Fail(db: Db, e: SalesError): Move {
    Finish(db, Failure(e))
  }

  function Ended(result: (Db, Outcome)): Move {
    Finish(result.0, result.1)
  }

  function MoveOf(db: Db, txs: map<TxId, Tx>, id: TxId, pick: Id, rows: seq<PieceIdentity>): Move
    requires id in txs
  {
    var t := txs[id];
    match t.pc
    case Begun =>
      (match Admit(db.users, t.req.actorId) case Denied(e) => Fail(db, e) case Admitted(a) => Go(Identified(a)))
    case Identified(a) => if CommandFree(txs, id, t.req.commandId) then Go(Commanding(a)) else Wait
    case Commanding(a) =>
      if t.req.commandId !in db.commands then Go(Working(a))
      else if !SameBinding(db.commands[t.req.commandId], t.req) then Fail(db, CommandConflict)
      else Go(Replaying(a, db.commands[t.req.commandId]))
    case Replaying(a, r) => if Visible(db, a, r) then Finish(db, MapResult(r, true)) else Fail(db, CommandNotFound)
    case Working(a) => StartWork(db, txs, id, a)
    case CustomerHeld(a, row) => CommitUpdate(db, t, a, row)
    case LinkingCustomers(a, shared) => LinkOrPlan(db, txs, id, a, shared, pick, rows)
    case DraftHeld(a, row, shared) => LinkOrImage(db, txs, id, a, row, shared, pick)
    case Imaged(a, row, before) => PlanMove(db, t, a, Some(Base(row, before)), rows)
    case PiecesPlanned(a, base, plan) => CommitDraft(db, t, a, base, plan)
  }

  function StartWork(db: Db, txs: map<TxId, Tx>, id: TxId, a: Account): Move
    requires id in txs
  {
    var t := txs[id];
    match t.req.intent
    case CreateCustomer(c) => Ended(Retain(db, a, t.req, t.stamp, PerformCreateCustomer(db, c, t.stamp)))
    case UpdateCustomer(c, v, _) =>
      if !CustomerFree(txs, id, c) then Wait
      else if c !in db.customers then Fail(db, CustomerNotFound)
      else if db.customers[c].version != v || db.customers[c].version == MAX_VERSION then Fail(db, CustomerVersionConflict)
      else Go(CustomerHeld(a, db.customers[c]))
    case CreateDraft(_) => Go(LinkingCustomers(a, {}))
    case SaveDraft(d, v, _) =>
      if !DraftFree(txs, id, d) then Wait
      else if d !in db.drafts || !MayOpen(a, db.drafts[d]) then Fail(db, DraftNotFound)
      else if db.drafts[d].version != v || db.drafts[d].version == MAX_VERSION then Fail(db, DraftVersionConflict)
      else Go(DraftHeld(a, db.drafts[d], {}))
  }

  function CommitUpdate(db: Db, t: Tx, a: Account, row: Customer): Move {
    match t.req.intent
    case UpdateCustomer(c, _, patch) =>
      if patch.phone.Put? && PhoneTaken(db.customers, patch.phone.value, c) then Fail(db, CustomerPhoneConflict)
      else
        var after := Patched(row, patch, t.stamp.now);
        Ended(Retain(db, a, t.req, t.stamp,
          Done(db.customers[c := after], db.drafts, db.pieces, Some(CustomerImage(row)), CustomerImage(after))))
    case _ => Wait
  }

  /** The share lock of one more customer, or None once every needed one is held. */
  function Link(db: Db, txs: map<TxId, Tx>, id: TxId, needed: set<Id>, shared: set<Id>, pick: Id): Option<Option<Id>> {
    if needed <= shared then None
    else if pick !in needed - shared || !CustomerShareable(txs, id, pick) then Some(None)
    else Some(Some(pick))
  }

  function LinkOrPlan(
    db: Db, txs: map<TxId, Tx>, id: TxId, a: Account, shared: set<Id>, pick: Id, rows: seq<PieceIdentity>): Move
    requires id in txs
  {
    match Link(db, txs, id, CapturedCustomer(txs[id].req.intent), shared, pick)
    case None => PlanMove(db, txs[id], a, None, rows)
    case Some(None) => Wait
    case Some(Some(c)) => if c !in db.customers then Fail(db, CustomerNotFound) else Go(LinkingCustomers(a, shared + {c}))
  }

  function LinkOrImage(db: Db, txs: map<TxId, Tx>, id: TxId, a: Account, row: DraftRow, shared: set<Id>, pick: Id): Move
    requires id in txs
  {
    var needed := Linked(row.header.customerId) + CapturedCustomer(txs[id].req.intent);
    match Link(db, txs, id, needed, shared, pick)
    case None =>
      (match MapDraft(db.customers, db.pieces, DraftIdOf(txs[id]), row, txs[id].stamp.ownerBefore)
      case None => Fail(db, InternalError)
      case Some(before) => Go(Imaged(a, row, before)))
    case Some(None) => Wait
    case Some(Some(c)) => if c !in db.customers then Fail(db, CustomerNotFound) else Go(DraftHeld(a, row, shared + {c}))
  }

  function PlanMove(db: Db, t: Tx, a: Account, base: Option<Base>, rows: seq<PieceIdentity>): Move {
    if !t.req.intent.CreateDraft? && !t.req.intent.SaveDraft? then Wait
    else
      var capture, d := t.req.intent.draft.pieces, DraftIdOf(t);
      if !DraftPieces.Lists(rows, db.pieces, Queried(db.pieces, Ids(capture), d)) then Wait
      else if |capture| < 1 || |capture| > MAX_DRAFT_PIECES || !Distinct(Ids(capture)) then Fail(db, InvalidPieces)
      else match FirstObstacle(Index(rows), Ids(capture), d)
        case OwnedElsewhere => Fail(db, DraftNotFound)
        case AlreadyRemoved => Fail(db, DraftPieceConflict)
        case Clear => Go(PiecesPlanned(a, base, PlanOf(rows, Ids(capture), d)))
  }

  function PlanOf(rows: seq<PieceIdentity>, ids: seq<Id>, d: Id): PiecePlan {
    PiecePlan(KnownAmong(ids, Index(rows)), UnknownAmong(ids, Index(rows)), Leaving(rows, ToSet(ids), d))
  }

  /**
   The writes of a draft command and its record, made visible by the commit. The piece rows follow the
   contract of WritePieces: all written, unless another draft has taken a new id since the planning.
   */
  function CommitDraft(db: Db, t: Tx, a: Account, base: Option<Base>, plan: PiecePlan): Move {
    match t.req.intent
    case CreateDraft(c) =>
      if StoreHeader(c) == None then Fail(db, InvalidHeader)
      else if t.stamp.freshId in db.drafts then Fail(db, InternalError)
      else if !NoneTaken(db.pieces, plan.newIds) then Fail(db, DraftNotFound)
      else Ended(Retain(db, a, t.req, t.stamp,
        FinishDraft(db, t.stamp.freshId, CreatedRow(a, c, t.stamp.now), c, None, t.stamp)))
    case SaveDraft(d, v, c) =>
      if base == None then Wait
      else if !NoneTaken(db.pieces, plan.newIds) then Fail(db, DraftNotFound)
      else if StoreHeader(c) == None then Fail(db, InvalidHeader)
      else if d !in db.drafts || db.drafts[d].version != v || !MayOpen(a, db.drafts[d]) then Fail(db, DraftVersionConflict)
      else Ended(Retain(db, a, t.req, t.stamp,
        FinishDraft(db, d, SavedRow(db.drafts[d], c, t.stamp.now), c, Some(DraftImage(base.value.before)), t.stamp)))
    case _ => Wait
  }

  // --- One step of the system ---

  function Recorded(l: Ledger, db: Db, commandId: Id): Ledger {
    Ledger(db, if commandId in db.commands && commandId !in l.db.commands then l.log + [db.commands[commandId]] else l.log)
  }

  function Next(s: System, e: Event): System {
    match e
    case Begin(id, req, stamp) =>
      if id in s.txs || !AcceptedIntent(req.intent) || stamp.freshId in s.used then s
      else s.(txs := s.txs[id := Tx(req, stamp, false, Begun)], used := s.used + {stamp.freshId})
    case Advance(id, pick, rows) =>
      if id !in s.txs then s
      else (match MoveOf(s.ledger.db, s.txs, id, pick, rows)
        case Wait => s
        case Go(pc) => s.(txs := s.txs[id := s.txs[id].(pc := pc)])
        case Finish(db, outcome) =>
          System(Recorded(s.ledger, db, s.txs[id].req.commandId), s.txs - {id}, s.used,
            s.answers + [Answer(s.txs[id].req, outcome)]))
    case Abort(id, timeout, stamp) =>
      if id !in s.txs then s
      else if timeout || s.txs[id].retried then
        s.(txs := s.txs - {id}, answers := s.answers + [Answer(s.txs[id].req, Failure(TransactionConflict))])
      else if stamp.freshId in s.used then s
      else s.(txs := s.txs[id := Tx(s.txs[id].req, stamp, true, Begun)], used := s.used + {stamp.freshId})
    case AccountWritten(a) =>
      if !AccountFree(s.txs, a.id) then s
      else s.(ledger := SalesHistory.Next(s.ledger, WriteAccount(a)))
    case AccountDropped(u) =>
      if !AccountFree(s.txs, u) then s
      else s.(ledger := SalesHistory.Next(s.ledger, DropAccount(u)))
  }

  function Run(s: System, events: seq<Event>): System {
    if events == [] then s else Next(Run(s, events[..|events| - 1]), events[|events| - 1])
  }

  // --- What an attempt has read stays true ---

  predicate KnownActor(t: Tx, db: Db, a: Account) {
    Admit(db.users, t.req.actorId) == Admitted(a)
  }

  predicate Fresh(t: Tx, db: Db, a: Account) {
    KnownActor(t, db, a) && t.req.commandId !in db.commands
  }

  predicate HeldRow(t: Tx, db: Db, a: Account, row: DraftRow) {
    && t.req.intent.SaveDraft? && t.req.intent.draftId in db.drafts && db.drafts[t.req.intent.draftId] == row
    && MayOpen(a, row) && row.version == t.req.intent.expected && row.version != MAX_VERSION
  }

  predicate HeldImage(t: Tx, db: Db, row: DraftRow, before: DraftDto) {
    && t.req.intent.SaveDraft?
    && CustomersExist(db.customers, Linked(row.header.customerId) + Linked(t.req.intent.draft.customerId))
    && MapDraft(db.customers, db.pieces, t.req.intent.draftId, row, t.stamp.ownerBefore) == Some(before)
  }

  predicate NotOurs(pieces: PieceTable, ids: seq<Id>, d: Id) {
    forall p | p in ids && p in pieces :: pieces[p].draftId != d
  }

  /** The plan still describes the draft, which is what WritePieces needs; a new id may only be taken by another draft. */
  ghost predicate PlanStands(pieces: PieceTable, capture: seq<PieceCapture>, d: Id, plan: PiecePlan) {
    PlanHolds(pieces, Ids(capture), d, plan) && NotOurs(pieces, plan.newIds, d)
  }

  ghost predicate ReadsHold(t: Tx, db: Db) {
    match t.pc
    case Begun => true
    case Identified(a) => KnownActor(t, db, a)
    case Commanding(a) => KnownActor(t, db, a)
    case Replaying(a, r) =>
      KnownActor(t, db, a) && t.req.commandId in db.commands && db.commands[t.req.commandId] == r && SameBinding(r, t.req)
    case Working(a) => Fresh(t, db, a)
    case CustomerHeld(a, row) =>
      && Fresh(t, db, a) && t.req.intent.UpdateCustomer? && t.req.intent.customerId in db.customers
      && db.customers[t.req.intent.customerId] == row && row.version == t.req.intent.expected && row.version != MAX_VERSION
    case LinkingCustomers(a, shared) => Fresh(t, db, a) && t.req.intent.CreateDraft? && CustomersExist(db.customers, shared)
    case DraftHeld(a, row, shared) => Fresh(t, db, a) && HeldRow(t, db, a, row) && CustomersExist(db.customers, shared)
    case Imaged(a, row, before) => Fresh(t, db, a) && HeldRow(t, db, a, row) && HeldImage(t, db, row, before)
    case PiecesPlanned(a, None, plan) =>
      && Fresh(t, db, a) && t.req.intent.CreateDraft? && CustomersExist(db.customers, Linked(t.req.intent.draft.customerId))
      && PlanStands(db.pieces, t.req.intent.draft.pieces, t.stamp.freshId, plan)
    case PiecesPlanned(a, Some(b), plan) =>
      && Fresh(t, db, a) && HeldRow(t, db, a, b.row) && HeldImage(t, db, b.row, b.before)
      && PlanStands(db.pieces, t.req.intent.draft.pieces, t.req.intent.draftId, plan)
  }

  // --- The last step of a call is the whole call ---

  lemma RefusalIsTheCall(db: Db, t: Tx, a: Account, e: SalesError)
    requires Fresh(t, db, a) && Perform(db, a, t.req.intent, t.stamp) == Refused(e)
    ensures Execute(db, t.req, t.stamp) == (db, Failure(e))
  {
  }

  lemma WorkIsTheCall(db: Db, t: Tx, a: Account, w: Work)
    requires Fresh(t, db, a) && Perform(db, a, t.req.intent, t.stamp) == w
    ensures Execute(db, t.req, t.stamp) == Retain(db, a, t.req, t.stamp, w)
  {
  }

  /** What a move that finishes must have done. */
  predicate IsTheCall(m: Move, db: Db, t: Tx) {
    m.Finish? ==> (m.db, m.outcome) == Execute(db, t.req, t.stamp)
  }

  lemma StartedWorkIsTheCall(db: Db, txs: map<TxId, Tx>, id: TxId, a: Account)
    requires id in txs && Fresh(txs[id], db, a)
    ensures IsTheCall(StartWork(db, txs, id, a), db, txs[id])
  {
    var t := txs[id];
    match t.req.intent
    case CreateCustomer(c) => WorkIsTheCall(db, t, a, PerformCreateCustomer(db, c, t.stamp));
    case UpdateCustomer(c, v, p) =>
      if StartWork(db, txs, id, a).Finish? {
        RefusalIsTheCall(db, t, a, PerformUpdateCustomer(db, c, v, p, t.stamp).error);
      }
    case CreateDraft(c) =>
    case SaveDraft(d, v, c) =>
      if StartWork(db, txs, id, a).Finish? {
        RefusalIsTheCall(db, t, a, PerformSaveDraft(db, a, d, v, c, t.stamp).error);
      }
  }

  lemma CommittedUpdateIsTheCall(db: Db, t: Tx, a: Account, row: Customer)
    requires t.pc == CustomerHeld(a, row) && ReadsHold(t, db)
    ensures IsTheCall(CommitUpdate(db, t, a, row), db, t)
  {
    WorkIsTheCall(db, t, a, Perform(db, a, t.req.intent, t.stamp));
  }

  lemma MissingCustomerIsTheCall(db: Db, t: Tx, a: Account, needed: set<Id>, c: Id)
    requires Fresh(t, db, a) && c in needed && c !in db.customers
    requires match t.req.intent
      case CreateDraft(d) => needed == Linked(d.customerId)
      case SaveDraft(id, v, d) =>
        id in db.drafts && HeldRow(t, db, a, db.drafts[id])
        && needed == Linked(db.drafts[id].header.customerId) + Linked(d.customerId)
      case _ => false
    ensures Execute(db, t.req, t.stamp) == (db, Failure(CustomerNotFound))
  {
    RefusalIsTheCall(db, t, a, CustomerNotFound);
  }

  /** Classifying the rows that were read is the planning on the whole table. */
  lemma RowsPlanAlike(t: PieceTable, rows: seq<PieceIdentity>, capture: seq<PieceCapture>, d: Id)
    requires DraftPieces.Lists(rows, t, Queried(t, Ids(capture), d))
    ensures
      var bad := |capture| < 1 || |capture| > MAX_DRAFT_PIECES || !Distinct(Ids(capture));
      var o := FirstObstacle(Index(rows), Ids(capture), d);
      PlanPieces(t, d, capture) ==
        if bad then PlanRefused(InvalidPieces)
        else if o == OwnedElsewhere then PlanRefused(DraftNotFound)
        else if o == AlreadyRemoved then PlanRefused(DraftPieceConflict) else Planned
  {
    QueriedRowsSuffice(t, rows, Ids(capture), d);
  }

  lemma PlannedRowsStand(t: PieceTable, rows: seq<PieceIdentity>, capture: seq<PieceCapture>, d: Id)
    requires DraftPieces.Lists(rows, t, Queried(t, Ids(capture), d))
    requires 1 <= |capture| <= MAX_DRAFT_PIECES && Distinct(Ids(capture))
    requires FirstObstacle(Index(rows), Ids(capture), d) == Clear
    ensures PlanStands(t, capture, d, PlanOf(rows, Ids(capture), d))
  {
    ValidPlanHolds(t, rows, Ids(capture), d);
  }

  lemma UnplannedCreateIsTheCall(db: Db, t: Tx, a: Account, e: SalesError)
    requires Fresh(t, db, a) && t.req.intent.CreateDraft?
    requires CustomersExist(db.customers, Linked(t.req.intent.draft.customerId))
    requires PlanPieces(db.pieces, t.stamp.freshId, t.req.intent.draft.pieces) == PlanRefused(e)
    ensures Execute(db, t.req, t.stamp) == (db, Failure(e))
  {
    RefusalIsTheCall(db, t, a, e);
  }

  lemma UnplannedSave(db: Db, a: Account, d: Id, v: nat, c: DraftCapture, stamp: Stamp, e: SalesError)
    requires PassesChecks(db, a, d, v, c) && MapDraft(db.customers, db.pieces, d, db.drafts[d], stamp.ownerBefore).Some?
    requires PlanPieces(db.pieces, d, c.pieces) == PlanRefused(e)
    ensures PerformSaveDraft(db, a, d, v, c, stamp) == Refused(e)
  {
  }

  lemma UnplannedSaveIsTheCall(db: Db, t: Tx, a: Account, row: DraftRow, before: DraftDto, e: SalesError)
    requires Fresh(t, db, a) && HeldRow(t, db, a, row) && HeldImage(t, db, row, before)
    requires PlanPieces(db.pieces, t.req.intent.draftId, t.req.intent.draft.pieces) == PlanRefused(e)
    ensures Execute(db, t.req, t.stamp) == (db, Failure(e))
  {
    var i := t.req.intent;
    UnplannedSave(db, a, i.draftId, i.expected, i.draft, t.stamp, e);
    RefusalIsTheCall(db, t, a, e);
  }

  lemma ObscuredSave(db: Db, a: Account, d: Id, v: nat, c: DraftCapture, stamp: Stamp)
    requires PassesChecks(db, a, d, v, c) && MapDraft(db.customers, db.pieces, d, db.drafts[d], stamp.ownerBefore) == None
    ensures PerformSaveDraft(db, a, d, v, c, stamp) == Refused(InternalError)
  {
  }

  lemma PlanMoveIsTheCall(db: Db, t: Tx, a: Account, base: Option<Base>, rows: seq<PieceIdentity>)
    requires Fresh(t, db, a)
    requires base == None ==> t.req.intent.CreateDraft? && CustomersExist(db.customers, Linked(t.req.intent.draft.customerId))
    requires base.Some? ==> HeldRow(t, db, a, base.value.row) && HeldImage(t, db, base.value.row, base.value.before)
    ensures IsTheCall(PlanMove(db, t, a, base, rows), db, t)
  {
    var m := PlanMove(db, t, a, base, rows);
    if m.Finish? {
      RowsPlanAlike(db.pieces, rows, t.req.intent.draft.pieces, DraftIdOf(t));
      if base == None {
        UnplannedCreateIsTheCall(db, t, a, m.outcome.error);
      } else {
        UnplannedSaveIsTheCall(db, t, a, base.value.row, base.value.before, m.outcome.error);
      }
    }
  }

  lemma LinkOrPlanIsTheCall(
    db: Db, txs: map<TxId, Tx>, id: TxId, a: Account, shared: set<Id>, pick: Id, rows: seq<PieceIdentity>)
    requires id in txs && txs[id].pc == LinkingCustomers(a, shared) && ReadsHold(txs[id], db)
    ensures IsTheCall(LinkOrPlan(db, txs, id, a, shared, pick, rows), db, txs[id])
  {
    var needed := CapturedCustomer(txs[id].req.intent);
    if needed <= shared {
      PlanMoveIsTheCall(db, txs[id], a, None, rows);
    } else if pick in needed - shared && pick !in db.customers {
      MissingCustomerIsTheCall(db, txs[id], a, needed, pick);
    }
  }

  lemma LinkOrImageIsTheCall(db: Db, txs: map<TxId, Tx>, id: TxId, a: Account, row: DraftRow, shared: set<Id>, pick: Id)
    requires id in txs && txs[id].pc == DraftHeld(a, row, shared) && ReadsHold(txs[id], db)
    ensures IsTheCall(LinkOrImage(db, txs, id, a, row, shared, pick), db, txs[id])
  {
    var t := txs[id];
    var i := t.req.intent;
    var needed := Linked(row.header.customerId) + CapturedCustomer(i);
    if needed <= shared {
      if MapDraft(db.customers, db.pieces, i.draftId, row, t.stamp.ownerBefore) == None {
        ObscuredSave(db, a, i.draftId, i.expected, i.draft, t.stamp);
        RefusalIsTheCall(db, t, a, InternalError);
      }
    } else if pick in needed - shared && pick !in db.customers {
      MissingCustomerIsTheCall(db, t, a, needed, pick);
    }
  }

  /** If another draft has taken a new id, planning now would find exactly that; otherwise it would still plan. */
  lemma StandingPlanDecides(t: PieceTable, capture: seq<PieceCapture>, d: Id, plan: PiecePlan)
    requires PlanStands(t, capture, d, plan)
    ensures PlanPieces(t, d, capture) == if NoneTaken(t, plan.newIds) then Planned else PlanRefused(DraftNotFound)
  {
    var ids, known := Ids(capture), Identities(t);
    ClearMeansAdmissible(t, ids, d);
    if NoneTaken(t, plan.newIds) {
      assert DraftPieces.Admissible(t, ids, d);
    } else {
      var p :| p in plan.newIds && p in t;
      assert !Active(t, p, d);
      var o := FirstObstacle(known, ids, d);
      assert o != Clear;
      forall i | 0 <= i < |ids| ensures ObstacleAt(known, ids[i], d) != AlreadyRemoved {
        assert ids[i] in ids;
        if ids[i] in t && !Active(t, ids[i], d) { assert ids[i] in plan.newIds; }
      }
    }
  }

  lemma PlannedCreate(db: Db, a: Account, c: DraftCapture, stamp: Stamp)
    requires CustomersExist(db.customers, Linked(c.customerId)) && StoreHeader(c).Some? && stamp.freshId !in db.drafts
    requires PlanPieces(db.pieces, stamp.freshId, c.pieces) == Planned
    ensures PerformCreateDraft(db, a, c, stamp) == FinishDraft(db, stamp.freshId, CreatedRow(a, c, stamp.now), c, None, stamp)
  {
  }

  lemma CommittedCreateIsTheCall(db: Db, t: Tx, a: Account, plan: PiecePlan)
    requires t.pc == PiecesPlanned(a, None, plan) && ReadsHold(t, db)
    requires AcceptedIntent(t.req.intent) && t.stamp.freshId !in db.drafts
    ensures IsTheCall(CommitDraft(db, t, a, None, plan), db, t)
  {
    var c, d := t.req.intent.draft, t.stamp.freshId;
    HeadersAreStored(c);
    StandingPlanDecides(db.pieces, c.pieces, d, plan);
    if NoneTaken(db.pieces, plan.newIds) {
      PlannedCreate(db, a, c, t.stamp);
      WorkIsTheCall(db, t, a, FinishDraft(db, d, CreatedRow(a, c, t.stamp.now), c, None, t.stamp));
    } else {
      UnplannedCreateIsTheCall(db, t, a, DraftNotFound);
    }
  }

  lemma FreeSaveIsTheCall(db: Db, t: Tx, a: Account, b: Base, plan: PiecePlan)
    requires Fresh(t, db, a) && HeldRow(t, db, a, b.row) && HeldImage(t, db, b.row, b.before)
    requires StoreHeader(t.req.intent.draft).Some? && NoneTaken(db.pieces, plan.newIds)
    requires PlanPieces(db.pieces, t.req.intent.draftId, t.req.intent.draft.pieces) == Planned
    ensures IsTheCall(CommitDraft(db, t, a, Some(b), plan), db, t)
  {
    var i := t.req.intent;
    PlannedSaveIsDone(db, a, i.draftId, i.expected, i.draft, b.before, t.stamp);
    WorkIsTheCall(db, t, a,
      FinishDraft(db, i.draftId, SavedRow(b.row, i.draft, t.stamp.now), i.draft, Some(DraftImage(b.before)), t.stamp));
  }

  lemma CommittedSaveIsTheCall(db: Db, t: Tx, a: Account, b: Base, plan: PiecePlan)
    requires t.pc == PiecesPlanned(a, Some(b), plan) && ReadsHold(t, db) && AcceptedIntent(t.req.intent)
    ensures IsTheCall(CommitDraft(db, t, a, Some(b), plan), db, t)
  {
    var i := t.req.intent;
    HeadersAreStored(i.draft);
    StandingPlanDecides(db.pieces, i.draft.pieces, i.draftId, plan);
    if NoneTaken(db.pieces, plan.newIds) {
      FreeSaveIsTheCall(db, t, a, b, plan);
    } else {
      UnplannedSaveIsTheCall(db, t, a, b.row, b.before, DraftNotFound);
    }
  }

  /** A call that ends does, at its last step, exactly what it would do if it ran alone at that moment. */
  lemma FinishIsTheCall(db: Db, txs: map<TxId, Tx>, id: TxId, pick: Id, rows: seq<PieceIdentity>)
    requires id in txs && ReadsHold(txs[id], db)
    requires AcceptedIntent(txs[id].req.intent) && txs[id].stamp.freshId !in db.drafts
    ensures IsTheCall(MoveOf(db, txs, id, pick, rows), db, txs[id])
  {
    var t := txs[id];
    match t.pc
    case Working(a) => StartedWorkIsTheCall(db, txs, id, a);
    case CustomerHeld(a, row) => CommittedUpdateIsTheCall(db, t, a, row);
    case LinkingCustomers(a, shared) => LinkOrPlanIsTheCall(db, txs, id, a, shared, pick, rows);
    case DraftHeld(a, row, shared) => LinkOrImageIsTheCall(db, txs, id, a, row, shared, pick);
    case Imaged(a, row, before) => PlanMoveIsTheCall(db, t, a, Some(Base(row, before)), rows);
    case PiecesPlanned(a, None, plan) => CommittedCreateIsTheCall(db, t, a, plan);
    case PiecesPlanned(a, Some(b), plan) => CommittedSaveIsTheCall(db, t, a, b, plan);
    case _ =>
  }

  // --- A move that goes on records true reads ---

  lemma PlanMoveReads(db: Db, t: Tx, a: Account, base: Option<Base>, rows: seq<PieceIdentity>)
    requires PlanMove(db, t, a, base, rows).Go?
    ensures
      var pc := PlanMove(db, t, a, base, rows).pc;
      && pc.PiecesPlanned? && pc.actor == a && pc.base == base && (t.req.intent.CreateDraft? || t.req.intent.SaveDraft?)
      && PlanStands(db.pieces, t.req.intent.draft.pieces, DraftIdOf(t), pc.plan)
  {
    PlannedRowsStand(db.pieces, rows, t.req.intent.draft.pieces, DraftIdOf(t));
  }

  lemma LinkReads(db: Db, txs: map<TxId, Tx>, id: TxId, a: Account, shared: set<Id>, pick: Id, rows: seq<PieceIdentity>)
    requires id in txs && txs[id].pc == LinkingCustomers(a, shared) && ReadsHold(txs[id], db)
    requires LinkOrPlan(db, txs, id, a, shared, pick, rows).Go?
    ensures ReadsHold(txs[id].(pc := LinkOrPlan(db, txs, id, a, shared, pick, rows).pc), db)
  {
    if CapturedCustomer(txs[id].req.intent) <= shared { PlanMoveReads(db, txs[id], a, None, rows); }
  }

  lemma ImageReads(db: Db, txs: map<TxId, Tx>, id: TxId, a: Account, row: DraftRow, shared: set<Id>, pick: Id)
    requires id in txs && txs[id].pc == DraftHeld(a, row, shared) && ReadsHold(txs[id], db)
    requires LinkOrImage(db, txs, id, a, row, shared, pick).Go?
    ensures ReadsHold(txs[id].(pc := LinkOrImage(db, txs, id, a, row, shared, pick).pc), db)
  {
  }

  lemma PlannedReads(db: Db, t: Tx, a: Account, row: DraftRow, before: DraftDto, rows: seq<PieceIdentity>)
    requires t.pc == Imaged(a, row, before) && ReadsHold(t, db) && PlanMove(db, t, a, Some(Base(row, before)), rows).Go?
    ensures ReadsHold(t.(pc := PlanMove(db, t, a, Some(Base(row, before)), rows).pc), db)
  {
    PlanMoveReads(db, t, a, Some(Base(row, before)), rows);
  }

  lemma GoReads(db: Db, txs: map<TxId, Tx>, id: TxId, pick: Id, rows: seq<PieceIdentity>)
    requires id in txs && ReadsHold(txs[id], db) && MoveOf(db, txs, id, pick, rows).Go?
    ensures ReadsHold(txs[id].(pc := MoveOf(db, txs, id, pick, rows).pc), db)
  {
    match txs[id].pc
    case LinkingCustomers(a, shared) => LinkReads(db, txs, id, a, shared, pick, rows);
    case DraftHeld(a, row, shared) => ImageReads(db, txs, id, a, row, shared, pick);
    case Imaged(a, row, before) => PlannedReads(db, txs[id], a, row, before, rows);
    case _ =>
  }

  // --- What one committed call leaves alone ---

  function TouchedBy(t: Tx): Resource {
    match t.req.intent
    case CreateCustomer(_) => CustomerOf(t.stamp.freshId)
    case UpdateCustomer(c, _, _) => CustomerOf(c)
    case CreateDraft(_) => DraftOf(t.stamp.freshId)
    case SaveDraft(d, _, _) => DraftOf(d)
  }

  /** Pieces of other drafts stay as they are, and a new piece belongs to the touched draft. */
  predicate PieceFrame(t: PieceTable, u: PieceTable, x: Resource) {
    && (forall p | p in t :: p in u && u[p].draftId == t[p].draftId && (DraftOf(t[p].draftId) != x ==> u[p] == t[p]))
    && (forall p | p in u && p !in t :: DraftOf(u[p].draftId) == x)
  }

  predicate RowFrame(a: Db, b: Db, x: Resource) {
    && (forall c | c in a.customers :: c in b.customers && (CustomerOf(c) != x ==> b.customers[c] == a.customers[c]))
    && (forall d | d in a.drafts :: d in b.drafts && (DraftOf(d) != x ==> b.drafts[d] == a.drafts[d]))
    && (forall c | c in b.customers && c !in a.customers :: CustomerOf(c) == x)
    && (forall d | d in b.drafts && d !in a.drafts :: DraftOf(d) == x)
  }

  predicate CommandFrame(a: Db, b: Db, command: Id) {
    && (forall k | k in a.commands :: k in b.commands && b.commands[k] == a.commands[k])
    && (forall k | k in b.commands && k !in a.commands :: k == command)
  }

  predicate Frame(a: Db, b: Db, x: Resource, command: Id) {
    b.users == a.users && CommandFrame(a, b, command) && RowFrame(a, b, x) && PieceFrame(a.pieces, b.pieces, x)
  }

  lemma FinishFrames(db: Db, id: Id, row: DraftRow, c: DraftCapture, before: Option<Image>, stamp: Stamp)
    requires FinishDraft(db, id, row, c, before, stamp).Done?
    ensures
      var w := FinishDraft(db, id, row, c, before, stamp);
      RowFrame(db, TablesAfter(db, w), DraftOf(id)) && PieceFrame(db.pieces, w.pieces, DraftOf(id))
  {
    RewriteKeepsIdentity(db.pieces, id, c.pieces, stamp.now);
  }

  lemma CustomerWorkFrames(db: Db, a: Account, t: Tx)
    requires ForCustomer(OperationOf(t.req.intent)) && Perform(db, a, t.req.intent, t.stamp).Done?
    ensures
      var w := Perform(db, a, t.req.intent, t.stamp);
      RowFrame(db, TablesAfter(db, w), TouchedBy(t)) && w.pieces == db.pieces
  {
  }

  lemma WorkFrames(db: Db, a: Account, t: Tx)
    requires Perform(db, a, t.req.intent, t.stamp).Done?
    ensures
      var w := Perform(db, a, t.req.intent, t.stamp);
      RowFrame(db, TablesAfter(db, w), TouchedBy(t)) && PieceFrame(db.pieces, w.pieces, TouchedBy(t))
  {
    match t.req.intent
    case CreateDraft(c) =>
      CreateDraftUnfolds(db, a, c, t.stamp);
      FinishFrames(db, t.stamp.freshId, CreatedRow(a, c, t.stamp.now), c, None, t.stamp);
    case SaveDraft(d, v, c) =>
      SaveDraftUnfolds(db, a, d, v, c, t.stamp);
      FinishFrames(db, d, SavedRow(db.drafts[d], c, t.stamp.now), c,
        Some(DraftImage(MapDraft(db.customers, db.pieces, d, db.drafts[d], t.stamp.ownerBefore).value)), t.stamp);
    case _ => CustomerWorkFrames(db, a, t);
  }

  lemma RetainFrames(db: Db, a: Account, t: Tx, w: Work)
    requires t.req.commandId !in db.commands
    requires w.Done? ==> RowFrame(db, TablesAfter(db, w), TouchedBy(t)) && PieceFrame(db.pieces, w.pieces, TouchedBy(t))
    ensures Frame(db, Retain(db, a, t.req, t.stamp, w).0, TouchedBy(t), t.req.commandId)
  {
  }

  /** A call changes the row it is about, adds at most its own command, and nothing else. */
  lemma CallFrames(db: Db, t: Tx)
    ensures Frame(db, Execute(db, t.req, t.stamp).0, TouchedBy(t), t.req.commandId)
    ensures t.req.commandId in db.commands ==> Execute(db, t.req, t.stamp).0 == db
  {
    var admission := Admit(db.users, t.req.actorId);
    if admission.Admitted? && t.req.commandId !in db.commands {
      var w := Perform(db, admission.actor, t.req.intent, t.stamp);
      if w.Done? { WorkFrames(db, admission.actor, t); }
      RetainFrames(db, admission.actor, t, w);
    }
  }

  // --- Others keep their reads ---

  predicate Untouched(u: Tx, x: Resource) {
    match x
    case CustomerOf(c) => !HoldsCustomer(u, c) && c !in SharedCustomers(u)
    case DraftOf(d) => !HoldsDraft(u, d) && d != u.stamp.freshId
  }

  lemma OtherDraftShowsAlike(a: Db, b: Db, x: Resource, command: Id, d: Id, row: DraftRow, name: string)
    requires Frame(a, b, x, command) && x != DraftOf(d)
    requires forall c | c in Linked(row.header.customerId) :: c in a.customers && x != CustomerOf(c)
    ensures MapDraft(b.customers, b.pieces, d, row, name) == MapDraft(a.customers, a.pieces, d, row, name)
  {
    UntouchedDraft(a.pieces, b.pieces, d);
    if row.header.customerId.Some? { assert row.header.customerId.value in Linked(row.header.customerId); }
  }

  lemma CustomersStay(a: Db, b: Db, x: Resource, command: Id, ids: set<Id>)
    requires Frame(a, b, x, command) && CustomersExist(a.customers, ids)
    ensures CustomersExist(b.customers, ids)
  {
  }

  lemma HeldImageLasts(u: Tx, a: Db, b: Db, x: Resource, command: Id, row: DraftRow, before: DraftDto)
    requires Frame(a, b, x, command) && HeldImage(u, a, row, before) && x != DraftOf(u.req.intent.draftId)
    requires forall c | c in Linked(row.header.customerId) :: x != CustomerOf(c)
    ensures HeldImage(u, b, row, before)
  {
    CustomersStay(a, b, x, command, Linked(row.header.customerId) + Linked(u.req.intent.draft.customerId));
    forall c | c in Linked(row.header.customerId) ensures c in a.customers {
      assert c in Linked(row.header.customerId) + Linked(u.req.intent.draft.customerId);
    }
    OtherDraftShowsAlike(a, b, x, command, u.req.intent.draftId, row, u.stamp.ownerBefore);
  }

  lemma HeldRowLasts(u: Tx, a: Db, b: Db, x: Resource, command: Id, actor: Account, row: DraftRow)
    requires Frame(a, b, x, command) && HeldRow(u, a, actor, row) && x != DraftOf(u.req.intent.draftId)
    ensures HeldRow(u, b, actor, row)
  {
  }

  lemma PlanLasts(t: PieceTable, u: PieceTable, x: Resource, capture: seq<PieceCapture>, d: Id, plan: PiecePlan)
    requires PieceFrame(t, u, x) && x != DraftOf(d) && PlanStands(t, capture, d, plan)
    ensures PlanStands(u, capture, d, plan)
  {
    assert forall p :: Active(u, p, d) <==> Active(t, p, d);
  }

  lemma SaveReadsLast(u: Tx, a: Db, b: Db, x: Resource, command: Id)
    requires u.req.intent.SaveDraft? && (u.pc.Imaged? || (u.pc.PiecesPlanned? && u.pc.base.Some?))
    requires ReadsHold(u, a) && Frame(a, b, x, command) && Untouched(u, x) && u.req.commandId != command
    ensures ReadsHold(u, b)
  {
    var row := if u.pc.Imaged? then u.pc.row else u.pc.base.value.row;
    var before := if u.pc.Imaged? then u.pc.before else u.pc.base.value.before;
    HeldRowLasts(u, a, b, x, command, u.pc.actor, row);
    HeldImageLasts(u, a, b, x, command, row, before);
    if u.pc.PiecesPlanned? {
      PlanLasts(a.pieces, b.pieces, x, u.req.intent.draft.pieces, u.req.intent.draftId, u.pc.plan);
    }
  }

  lemma CreateReadsLast(u: Tx, a: Db, b: Db, x: Resource, command: Id)
    requires u.pc.PiecesPlanned? && u.pc.base == None
    requires ReadsHold(u, a) && Frame(a, b, x, command) && Untouched(u, x) && u.req.commandId != command
    ensures ReadsHold(u, b)
  {
    CustomersStay(a, b, x, command, Linked(u.req.intent.draft.customerId));
    PlanLasts(a.pieces, b.pieces, x, u.req.intent.draft.pieces, u.stamp.freshId, u.pc.plan);
  }

  /** What a transaction has read under its locks stays true when another one commits. */
  lemma ReadsLast(u: Tx, a: Db, b: Db, x: Resource, command: Id)
    requires ReadsHold(u, a) && Frame(a, b, x, command) && Untouched(u, x)
    requires HoldsCommand(u) ==> u.req.commandId != command
    ensures ReadsHold(u, b)
  {
    match u.pc
    case Imaged(_, _, _) => SaveReadsLast(u, a, b, x, command);
    case PiecesPlanned(_, Some(_), _) => SaveReadsLast(u, a, b, x, command);
    case PiecesPlanned(_, None, _) => CreateReadsLast(u, a, b, x, command);
    case _ =>
  }

  // --- The invariant of the system ---

  predicate DraftsApart(t: Tx, u: Tx) {
    t.req.intent.SaveDraft? && HoldsDraft(t, t.req.intent.draftId) ==> !HoldsDraft(u, t.req.intent.draftId)
  }

  predicate CustomersApart(t: Tx, u: Tx) {
    t.req.intent.UpdateCustomer? && HoldsCustomer(t, t.req.intent.customerId) ==>
      !HoldsCustomer(u, t.req.intent.customerId) && t.req.intent.customerId !in SharedCustomers(u)
  }

  /** Two transactions never hold conflicting locks, and never share a fresh id. */
  predicate Apart(t: Tx, u: Tx) {
    && t.stamp.freshId != u.stamp.freshId
    && (HoldsCommand(t) && HoldsCommand(u) ==> t.req.commandId != u.req.commandId)
    && DraftsApart(t, u) && DraftsApart(u, t) && CustomersApart(t, u) && CustomersApart(u, t)
  }

  ghost predicate TxHolds(t: Tx, db: Db, used: set<Id>) {
    && AcceptedIntent(t.req.intent) && ReadsHold(t, db)
    && t.stamp.freshId in used && t.stamp.freshId !in db.drafts && t.stamp.freshId !in db.customers
  }

  ghost predicate TxsHold(txs: map<TxId, Tx>, db: Db, used: set<Id>) {
    (forall id | id in txs :: TxHolds(txs[id], db, used)) &&
    (forall id, u | id in txs && u in txs && id != u :: Apart(txs[id], txs[u]))
  }

  predicate KeysUsed(db: Db, used: set<Id>) {
    (forall d | d in db.drafts :: d in used) && (forall c | c in db.customers :: c in used)
  }

  /** A success names the retained record of its command, made for the same request, and shows what that record maps to. */
  predicate AnswerHolds(db: Db, a: Answer) {
    a.outcome.Success? ==>
      && a.req.commandId in db.commands && SameBinding(db.commands[a.req.commandId], a.req)
      && MapResult(db.commands[a.req.commandId], true) == Success(a.outcome.data.(replayed := true))
  }

  predicate DoneNow(a: Answer) {
    a.outcome.Success? && !a.outcome.data.replayed
  }

  predicate AnswersHold(db: Db, answers: seq<Answer>) {
    && (forall a | a in answers :: AnswerHolds(db, a))
    && (forall i, j :: 0 <= i < j < |answers| && DoneNow(answers[i]) && DoneNow(answers[j]) ==>
          answers[i].req.commandId != answers[j].req.commandId)
  }

  ghost predicate Holds(s: System) {
    && LedgerHolds(s.ledger) && KeysUsed(s.ledger.db, s.used)
    && TxsHold(s.txs, s.ledger.db, s.used) && AnswersHold(s.ledger.db, s.answers)
  }

  // --- A transaction that goes on ---

  lemma GoKeepsDraftsApart(db: Db, txs: map<TxId, Tx>, id: TxId, pick: Id, rows: seq<PieceIdentity>, u: TxId)
    requires id in txs && u in txs && id != u && ReadsHold(txs[id], db) && Apart(txs[id], txs[u])
    requires MoveOf(db, txs, id, pick, rows).Go?
    ensures
      var moved := txs[id].(pc := MoveOf(db, txs, id, pick, rows).pc);
      DraftsApart(moved, txs[u]) && DraftsApart(txs[u], moved)
      && (HoldsCommand(moved) && HoldsCommand(txs[u]) ==> moved.req.commandId != txs[u].req.commandId)
  {
  }

  /** A move shares at most one more customer, and only one that nobody holds exclusively. */
  lemma SharedGrows(db: Db, txs: map<TxId, Tx>, id: TxId, pick: Id, rows: seq<PieceIdentity>)
    requires id in txs && ReadsHold(txs[id], db) && MoveOf(db, txs, id, pick, rows).Go?
    ensures
      var moved := txs[id].(pc := MoveOf(db, txs, id, pick, rows).pc);
      forall c | c in SharedCustomers(moved) :: c in SharedCustomers(txs[id]) || CustomerShareable(txs, id, c)
  {
  }

  lemma HeldCustomerWasFree(db: Db, txs: map<TxId, Tx>, id: TxId, pick: Id, rows: seq<PieceIdentity>)
    requires id in txs && ReadsHold(txs[id], db) && MoveOf(db, txs, id, pick, rows).Go?
    ensures
      var moved := txs[id].(pc := MoveOf(db, txs, id, pick, rows).pc);
      moved.req.intent.UpdateCustomer? && HoldsCustomer(moved, moved.req.intent.customerId) ==>
        CustomerFree(txs, id, moved.req.intent.customerId)
  {
  }

  lemma GoKeepsCustomersApart(db: Db, txs: map<TxId, Tx>, id: TxId, pick: Id, rows: seq<PieceIdentity>, u: TxId)
    requires id in txs && u in txs && id != u && ReadsHold(txs[id], db) && Apart(txs[id], txs[u])
    requires MoveOf(db, txs, id, pick, rows).Go?
    ensures
      var moved := txs[id].(pc := MoveOf(db, txs, id, pick, rows).pc);
      CustomersApart(moved, txs[u]) && CustomersApart(txs[u], moved)
  {
    SharedGrows(db, txs, id, pick, rows);
    HeldCustomerWasFree(db, txs, id, pick, rows);
  }

  lemma GoKeepsApart(db: Db, txs: map<TxId, Tx>, id: TxId, pick: Id, rows: seq<PieceIdentity>, u: TxId)
    requires id in txs && u in txs && id != u && ReadsHold(txs[id], db) && Apart(txs[id], txs[u])
    requires MoveOf(db, txs, id, pick, rows).Go?
    ensures Apart(txs[id].(pc := MoveOf(db, txs, id, pick, rows).pc), txs[u])
  {
    GoKeepsDraftsApart(db, txs, id, pick, rows, u);
    GoKeepsCustomersApart(db, txs, id, pick, rows, u);
  }

  lemma GoKeepsTxs(db: Db, txs: map<TxId, Tx>, used: set<Id>, id: TxId, pick: Id, rows: seq<PieceIdentity>)
    requires TxsHold(txs, db, used) && id in txs && MoveOf(db, txs, id, pick, rows).Go?
    ensures TxsHold(txs[id := txs[id].(pc := MoveOf(db, txs, id, pick, rows).pc)], db, used)
  {
    var moved := txs[id].(pc := MoveOf(db, txs, id, pick, rows).pc);
    GoReads(db, txs, id, pick, rows);
    forall u | u in txs && u != id ensures Apart(moved, txs[u]) {
      GoKeepsApart(db, txs, id, pick, rows, u);
    }
  }

  // --- A transaction that ends ---

  /** A transaction that writes holds the lock of the row it writes. */
  predicate Writes(t: Tx) {
    match t.req.intent
    case CreateCustomer(_) => true
    case UpdateCustomer(c, _, _) => HoldsCustomer(t, c)
    case CreateDraft(_) => true
    case SaveDraft(d, _, _) => HoldsDraft(t, d)
  }

  lemma WriterHoldsItsRow(db: Db, txs: map<TxId, Tx>, id: TxId, pick: Id, rows: seq<PieceIdentity>)
    requires id in txs && ReadsHold(txs[id], db)
    ensures
      var m := MoveOf(db, txs, id, pick, rows);
      m.Finish? && m.db != db ==> Writes(txs[id]) && HoldsCommand(txs[id]) && txs[id].req.commandId !in db.commands
  {
  }

  lemma LockedRowsExist(u: Tx, db: Db)
    requires ReadsHold(u, db)
    ensures CustomersExist(db.customers, SharedCustomers(u))
    ensures u.req.intent.UpdateCustomer? && HoldsCustomer(u, u.req.intent.customerId) ==> u.req.intent.customerId in db.customers
    ensures u.req.intent.SaveDraft? && HoldsDraft(u, u.req.intent.draftId) ==> u.req.intent.draftId in db.drafts
  {
  }

  lemma WrittenRowIsUntouched(t: Tx, u: Tx, db: Db, used: set<Id>)
    requires TxHolds(t, db, used) && TxHolds(u, db, used) && Apart(t, u) && Writes(t)
    ensures Untouched(u, TouchedBy(t))
  {
    LockedRowsExist(u, db);
    LockedRowsExist(t, db);
  }

  lemma OthersKeepTheirReads(db: Db, after: Db, t: Tx, u: Tx, used: set<Id>)
    requires TxHolds(t, db, used) && TxHolds(u, db, used) && Apart(t, u)
    requires Writes(t) && HoldsCommand(t) && Frame(db, after, TouchedBy(t), t.req.commandId)
    ensures TxHolds(u, after, used)
  {
    WrittenRowIsUntouched(t, u, db, used);
    ReadsLast(u, db, after, TouchedBy(t), t.req.commandId);
    LockedRowsExist(t, db);
    FreshStaysFresh(db, after, t, u, used);
  }

  lemma FreshStaysFresh(db: Db, after: Db, t: Tx, u: Tx, used: set<Id>)
    requires TxHolds(t, db, used) && TxHolds(u, db, used) && Apart(t, u) && Writes(t)
    requires RowFrame(db, after, TouchedBy(t))
    ensures u.stamp.freshId !in after.drafts && u.stamp.freshId !in after.customers
  {
    LockedRowsExist(t, db);
  }

  lemma FinishKeepsTxs(db: Db, txs: map<TxId, Tx>, used: set<Id>, id: TxId, pick: Id, rows: seq<PieceIdentity>)
    requires TxsHold(txs, db, used) && id in txs && MoveOf(db, txs, id, pick, rows).Finish?
    ensures TxsHold(txs - {id}, MoveOf(db, txs, id, pick, rows).db, used)
  {
    var after := MoveOf(db, txs, id, pick, rows).db;
    if after != db {
      FinishIsTheCall(db, txs, id, pick, rows);
      WriterHoldsItsRow(db, txs, id, pick, rows);
      CallFrames(db, txs[id]);
      forall u | u in txs - {id} ensures TxHolds(txs[u], after, used) {
        OthersKeepTheirReads(db, after, txs[id], txs[u], used);
      }
    }
  }

  lemma FinishKeepsKeys(db: Db, txs: map<TxId, Tx>, used: set<Id>, id: TxId, pick: Id, rows: seq<PieceIdentity>)
    requires TxsHold(txs, db, used) && id in txs && MoveOf(db, txs, id, pick, rows).Finish? && KeysUsed(db, used)
    ensures KeysUsed(MoveOf(db, txs, id, pick, rows).db, used)
  {
    var after := MoveOf(db, txs, id, pick, rows).db;
    if after != db {
      FinishIsTheCall(db, txs, id, pick, rows);
      WriterHoldsItsRow(db, txs, id, pick, rows);
      CallFrames(db, txs[id]);
      WrittenKeysUsed(db, after, txs[id], used);
    }
  }

  lemma WrittenKeysUsed(db: Db, after: Db, t: Tx, used: set<Id>)
    requires TxHolds(t, db, used) && Writes(t) && KeysUsed(db, used) && RowFrame(db, after, TouchedBy(t))
    ensures KeysUsed(after, used)
  {
    LockedRowsExist(t, db);
  }

  /** The ledger after a call that ends is the ledger after that call run alone. */
  lemma FinishIsACommit(l: Ledger, txs: map<TxId, Tx>, used: set<Id>, id: TxId, pick: Id, rows: seq<PieceIdentity>)
    requires TxsHold(txs, l.db, used) && id in txs && MoveOf(l.db, txs, id, pick, rows).Finish?
    ensures
      var m, t := MoveOf(l.db, txs, id, pick, rows), txs[id];
      Recorded(l, m.db, t.req.commandId) == Commit(l, t.req, t.stamp) && m.outcome == Execute(l.db, t.req, t.stamp).1
  {
    FinishIsTheCall(l.db, txs, id, pick, rows);
  }

  // --- Answers ---

  lemma RetainedAnswer(db: Db, req: Request, stamp: Stamp)
    requires req.commandId in db.commands
    ensures AnswerHolds(db, Answer(req, Execute(db, req, stamp).1)) && !DoneNow(Answer(req, Execute(db, req, stamp).1))
  {
  }

  lemma NewAnswer(l: Ledger, req: Request, stamp: Stamp)
    requires LedgerHolds(l) && AcceptedIntent(req.intent)
    ensures AnswerHolds(Commit(l, req, stamp).db, Answer(req, Execute(l.db, req, stamp).1))
    ensures DoneNow(Answer(req, Execute(l.db, req, stamp).1)) ==> req.commandId !in l.db.commands
  {
    if req.commandId in l.db.commands {
      RetainedAnswer(l.db, req, stamp);
      RetainedCommandChangesNothing(l.db, req, stamp);
    } else if Execute(l.db, req, stamp).1.Success? {
      SuccessIsStored(l, req, stamp);
    }
  }

  lemma AnswersGrow(a: Db, b: Db, answers: seq<Answer>, last: Answer)
    requires AnswersHold(a, answers) && AnswerHolds(b, last)
    requires forall k | k in a.commands :: k in b.commands && b.commands[k] == a.commands[k]
    requires DoneNow(last) ==> last.req.commandId !in a.commands
    ensures AnswersHold(b, answers + [last])
  {
    var more := answers + [last];
    forall x | x in more ensures AnswerHolds(b, x) {
      assert x in answers ==> AnswerHolds(a, x);
    }
    forall i, j | 0 <= i < j < |more| && DoneNow(more[i]) && DoneNow(more[j])
      ensures more[i].req.commandId != more[j].req.commandId
    {
      assert more[i] in answers;
      assert AnswerHolds(a, more[i]);
    }
  }

  // --- Account writes ---

  lemma AccountWriteKeepsReads(t: Tx, db: Db, users: map<Id, Account>, user: Id)
    requires ReadsHold(t, db) && !SharesAccount(t, user)
    requires forall u | u != user :: (u in users <==> u in db.users) && (u in users ==> users[u] == db.users[u])
    ensures ReadsHold(t, db.(users := users))
  {
  }

  lemma AccountWriteKeepsTxs(txs: map<TxId, Tx>, db: Db, used: set<Id>, users: map<Id, Account>, user: Id)
    requires TxsHold(txs, db, used) && AccountFree(txs, user)
    requires forall u | u != user :: (u in users <==> u in db.users) && (u in users ==> users[u] == db.users[u])
    ensures TxsHold(txs, db.(users := users), used)
  {
    forall id | id in txs ensures TxHolds(txs[id], db.(users := users), used) {
      AccountWriteKeepsReads(txs[id], db, users, user);
    }
  }

  lemma AccountEventHolds(s: System, users: map<Id, Account>, user: Id)
    requires Holds(s) && AccountFree(s.txs, user) && forall u | u in users :: users[u].id == u
    requires forall u | u != user :: (u in users <==> u in s.ledger.db.users) && (u in users ==> users[u] == s.ledger.db.users[u])
    ensures Holds(s.(ledger := s.ledger.(db := s.ledger.db.(users := users))))
  {
    AccountsDoNotMatter(s.ledger, users);
    AccountWriteKeepsTxs(s.txs, s.ledger.db, s.used, users, user);
    AnswersIgnoreAccounts(s.ledger.db, users, s.answers);
  }

  lemma AnswersIgnoreAccounts(db: Db, users: map<Id, Account>, answers: seq<Answer>)
    requires AnswersHold(db, answers)
    ensures AnswersHold(db.(users := users), answers)
  {
    forall a | a in answers ensures AnswerHolds(db.(users := users), a) {
      assert AnswerHolds(db, a);
    }
  }

  // --- Every step, every run ---

  lemma BegunIsApart(t: Tx, u: Tx)
    requires t.pc.Begun? && t.stamp.freshId != u.stamp.freshId
    ensures Apart(t, u) && Apart(u, t)
  {
  }

  lemma StartedTxs(txs: map<TxId, Tx>, db: Db, used: set<Id>, id: TxId, t: Tx)
    requires TxsHold(txs, db, used) && KeysUsed(db, used)
    requires t.pc.Begun? && AcceptedIntent(t.req.intent) && t.stamp.freshId !in used
    ensures TxsHold(txs[id := t], db, used + {t.stamp.freshId})
  {
    forall u | u in txs ensures TxHolds(txs[u], db, used + {t.stamp.freshId}) && Apart(t, txs[u]) && Apart(txs[u], t) {
      BegunIsApart(t, txs[u]);
    }
  }

  lemma FinishHolds(s: System, id: TxId, pick: Id, rows: seq<PieceIdentity>)
    requires Holds(s) && id in s.txs && MoveOf(s.ledger.db, s.txs, id, pick, rows).Finish?
    ensures Holds(Next(s, Advance(id, pick, rows)))
  {
    var db, t := s.ledger.db, s.txs[id];
    var m := MoveOf(db, s.txs, id, pick, rows);
    FinishIsACommit(s.ledger, s.txs, s.used, id, pick, rows);
    CommitHolds(s.ledger, t.req, t.stamp);
    FinishKeepsTxs(db, s.txs, s.used, id, pick, rows);
    FinishKeepsKeys(db, s.txs, s.used, id, pick, rows);
    NewAnswer(s.ledger, t.req, t.stamp);
    CommitExtends(s.ledger, t.req, t.stamp);
    AnswersGrow(db, m.db, s.answers, Answer(t.req, m.outcome));
  }

  lemma GoHolds(s: System, id: TxId, pick: Id, rows: seq<PieceIdentity>)
    requires Holds(s) && id in s.txs && MoveOf(s.ledger.db, s.txs, id, pick, rows).Go?
    ensures Holds(Next(s, Advance(id, pick, rows)))
  {
    GoKeepsTxs(s.ledger.db, s.txs, s.used, id, pick, rows);
  }

  lemma BeginHolds(s: System, id: TxId, req: Request, stamp: Stamp)
    requires Holds(s)
    ensures Holds(Next(s, Begin(id, req, stamp)))
  {
    if id !in s.txs && AcceptedIntent(req.intent) && stamp.freshId !in s.used {
      StartedTxs(s.txs, s.ledger.db, s.used, id, Tx(req, stamp, false, Begun));
    }
  }

  lemma AbortHolds(s: System, id: TxId, timeout: bool, stamp: Stamp)
    requires Holds(s)
    ensures Holds(Next(s, Abort(id, timeout, stamp)))
  {
    if id in s.txs {
      if timeout || s.txs[id].retried {
        AnswersGrow(s.ledger.db, s.ledger.db, s.answers, Answer(s.txs[id].req, Failure(TransactionConflict)));
      } else if stamp.freshId !in s.used {
        StartedTxs(s.txs, s.ledger.db, s.used, id, Tx(s.txs[id].req, stamp, true, Begun));
      }
    }
  }

  lemma StepHolds(s: System, e: Event)
    requires Holds(s)
    ensures Holds(Next(s, e))
  {
    match e
    case Begin(id, req, stamp) => BeginHolds(s, id, req, stamp);
    case Advance(id, pick, rows) =>
      if id in s.txs {
        match MoveOf(s.ledger.db, s.txs, id, pick, rows)
        case Wait =>
        case Go(pc) => GoHolds(s, id, pick, rows);
        case Finish(db, outcome) => FinishHolds(s, id, pick, rows);
      }
    case Abort(id, timeout, stamp) => AbortHolds(s, id, timeout, stamp);
    case AccountWritten(a) =>
      if AccountFree(s.txs, a.id) { AccountEventHolds(s, s.ledger.db.users[a.id := a], a.id); }
    case AccountDropped(u) =>
      if AccountFree(s.txs, u) { AccountEventHolds(s, s.ledger.db.users - {u}, u); }
  }

  /** The serial event that a step amounts to, if it amounts to one. */
  function SerialEvent(s: System, e: Event): seq<SalesHistory.Event> {
    match e
    case Advance(id, pick, rows) =>
      if id in s.txs && MoveOf(s.ledger.db, s.txs, id, pick, rows).Finish? then [Call(s.txs[id].req, s.txs[id].stamp)] else []
    case AccountWritten(a) => if AccountFree(s.txs, a.id) then [WriteAccount(a)] else []
    case AccountDropped(u) => if AccountFree(s.txs, u) then [DropAccount(u)] else []
    case _ => []
  }

  function SerialRun(s: System, events: seq<Event>): seq<SalesHistory.Event> {
    if events == [] then []
    else
      var front := events[..|events| - 1];
      SerialRun(s, front) + SerialEvent(Run(s, front), events[|events| - 1])
  }

  /** The answers that a step gives: of a call that ends, what it answers run alone; of one that gives up, a conflict. */
  function StepAnswers(s: System, e: Event): seq<Answer> {
    match e
    case Advance(id, pick, rows) =>
      if id in s.txs && MoveOf(s.ledger.db, s.txs, id, pick, rows).Finish?
      then [Answer(s.txs[id].req, Execute(s.ledger.db, s.txs[id].req, s.txs[id].stamp).1)] else []
    case Abort(id, timeout, _) =>
      if id in s.txs && (timeout || s.txs[id].retried) then [Answer(s.txs[id].req, Failure(TransactionConflict))] else []
    case _ => []
  }

  predicate AnswersLikeSerial(s: System, e: Event) {
    Next(s, e).answers == s.answers + StepAnswers(s, e)
  }

  function RunAnswers(s: System, events: seq<Event>): seq<Answer> {
    if events == [] then []
    else
      var front := events[..|events| - 1];
      RunAnswers(s, front) + StepAnswers(Run(s, front), events[|events| - 1])
  }

  lemma FinishIsSerial(s: System, id: TxId, pick: Id, rows: seq<PieceIdentity>)
    requires Holds(s) && id in s.txs && MoveOf(s.ledger.db, s.txs, id, pick, rows).Finish?
    ensures Next(s, Advance(id, pick, rows)).ledger
      == SalesHistory.Next(s.ledger, Call(s.txs[id].req, s.txs[id].stamp))
    ensures AnswersLikeSerial(s, Advance(id, pick, rows))
  {
    FinishIsACommit(s.ledger, s.txs, s.used, id, pick, rows);
  }

  lemma StepIsSerial(s: System, e: Event)
    requires Holds(s)
    ensures Next(s, e).ledger == SalesHistory.Run(s.ledger, SerialEvent(s, e))
    ensures AnswersLikeSerial(s, e)
    ensures AllAdmissible(SerialEvent(s, e))
  {
    RunOfAtMostOne(s.ledger, SerialEvent(s, e));
    if e.Advance? && SerialEvent(s, e) != [] { FinishIsSerial(s, e.id, e.pick, e.rows); }
  }

  lemma RunOfAtMostOne(l: Ledger, events: seq<SalesHistory.Event>)
    requires |events| <= 1
    ensures SalesHistory.Run(l, events) == if events == [] then l else SalesHistory.Next(l, events[0])
  {
    if events != [] {
      assert events[..0] == [];
      assert SalesHistory.Run(l, events[..0]) == l;
    }
  }

  lemma {:induction false} SerialRunsJoin(l: Ledger, a: seq<SalesHistory.Event>, b: seq<SalesHistory.Event>)
    ensures SalesHistory.Run(l, a + b) == SalesHistory.Run(SalesHistory.Run(l, a), b)
  {
    if b == [] {
      assert a + b == a;
    } else {
      SerialRunsJoin(l, a, b[..|b| - 1]);
      assert (a + b)[..|a + b| - 1] == a + b[..|b| - 1];
    }
  }

  lemma AnswersJoin(a: seq<Answer>, b: seq<Answer>, c: seq<Answer>)
    ensures a + b + c == a + (b + c)
  {
  }

  /**
   Every interleaving is serial: the tables and the retained history after any run of concurrent, aborted and retried
   calls are those of one call after the other, in the order in which the calls end, and so are all the answers.
   */
  lemma {:induction false} RunIsSerial(s: System, events: seq<Event>)
    requires Holds(s)
    ensures Holds(Run(s, events)) && AllAdmissible(SerialRun(s, events))
    ensures Run(s, events).ledger == SalesHistory.Run(s.ledger, SerialRun(s, events))
    ensures Run(s, events).answers == s.answers + RunAnswers(s, events)
  {
    if events != [] {
      var front, last := events[..|events| - 1], events[|events| - 1];
      RunIsSerial(s, front);
      StepHolds(Run(s, front), last);
      StepIsSerial(Run(s, front), last);
      SerialRunsJoin(s.ledger, SerialRun(s, front), SerialEvent(Run(s, front), last));
      AnswersJoin(s.answers, RunAnswers(s, front), StepAnswers(Run(s, front), last));
    }
  }

  lemma NothingRunningHolds(l: Ledger, used: set<Id>)
    requires LedgerHolds(l) && KeysUsed(l.db, used)
    ensures Holds(System(l, map[], used, []))
  {
  }

  /**
   Exactly once, whatever runs at the same time: two successful answers to one command were given to the
   same request, carry the same receipt and the same saved image, and at most one of them did the work.
   */
  lemma ExactlyOnce(l: Ledger, used: set<Id>, events: seq<Event>, i: nat, j: nat)
    requires LedgerHolds(l) && KeysUsed(l.db, used)
    requires
      var answers := Run(System(l, map[], used, []), events).answers;
      i < j < |answers| && answers[i].outcome.Success? && answers[j].outcome.Success?
      && answers[i].req.commandId == answers[j].req.commandId
    ensures
      var answers := Run(System(l, map[], used, []), events).answers;
      var a, b := answers[i].outcome.data, answers[j].outcome.data;
      && answers[i].req == answers[j].req && a.receipt == b.receipt && a.saved == b.saved
      && (a.replayed || b.replayed)
  {
    var s := Run(System(l, map[], used, []), events);
    NothingRunningHolds(l, used);
    RunIsSerial(System(l, map[], used, []), events);
    TwoAnswersAgree(s.ledger.db, s.answers, i, j);
  }

  lemma TwoAnswersAgree(db: Db, answers: seq<Answer>, i: nat, j: nat)
    requires AnswersHold(db, answers) && i < j < |answers|
    requires answers[i].outcome.Success? && answers[j].outcome.Success? && answers[i].req.commandId == answers[j].req.commandId
    ensures answers[i].req == answers[j].req
    ensures answers[i].outcome.data.receipt == answers[j].outcome.data.receipt
    ensures answers[i].outcome.data.saved == answers[j].outcome.data.saved
    ensures answers[i].outcome.data.replayed || answers[j].outcome.data.replayed
  {
    assert answers[i] in answers && answers[j] in answers;
    assert AnswerHolds(db, answers[i]) && AnswerHolds(db, answers[j]);
    var r := MapResult(db.commands[answers[i].req.commandId], true).data;
    assert r == answers[i].outcome.data.(replayed := true) && r == answers[j].outcome.data.(replayed := true);
    assert !(DoneNow(answers[i]) && DoneNow(answers[j]));
  }

  /**
   Whatever runs at the same time, a draft command that has planned its pieces can write them: the contract of
   WritePieces applies, so no count check and no position can fail, and only a taken piece id is left.
   */
  lemma PlannedPiecesCanBeWritten(l: Ledger, used: set<Id>, events: seq<Event>, id: TxId)
    requires LedgerHolds(l) && KeysUsed(l.db, used)
    requires id in Run(System(l, map[], used, []), events).txs
    requires Run(System(l, map[], used, []), events).txs[id].pc.PiecesPlanned?
    ensures
      var s := Run(System(l, map[], used, []), events);
      var t, pieces := s.txs[id], s.ledger.db.pieces;
      && (t.req.intent.CreateDraft? || t.req.intent.SaveDraft?) && Shiftable(pieces, DraftIdOf(t))
      && PlanHolds(pieces, Ids(t.req.intent.draft.pieces), DraftIdOf(t), t.pc.plan)
  {
    var s := Run(System(l, map[], used, []), events);
    NothingRunningHolds(l, used);
    RunIsSerial(System(l, map[], used, []), events);
    assert TxHolds(s.txs[id], s.ledger.db, s.used);
    SalesDatabase.TablesAreShiftable(s.ledger.db, DraftIdOf(s.txs[id]));
  }
}

/**
 What a sales command and its observation answer, told by the columns of the rows: who is refused, when a command
 succeeds, which refusal comes otherwise, and what the tables hold afterwards.
 */
module SalesAnswers {
  import opened Foundations
  import opened Accounts
  import opened DraftPieces
  import opened PieceRewrite
  import opened SalesModel
  import opened SalesHistory
  import opened SalesTheorems

  // --- Who may act ---

  /** A verified active administrator, or a verified active approved employee of the sales department. */
  predicate SellsNow(a: Account) {
    && a.status == ACTIVE && a.emailVerifiedAt.Some?
    && (a.role == ADMIN || (a.staffApprovedAt.Some? && a.staffApprovedById.Some? && a.department == Some(SALES)))
  }

  predicate Suspect(a: Account) {
    || a.status != ACTIVE || a.emailVerifiedAt == None
    || (a.role == USER && (a.staffApprovedAt == None || a.staffApprovedById == None || a.department == None))
  }

  function Refusal(users: map<Id, Account>, actorId: Id): Option<SalesError> {
    if actorId !in users then Some(Unauthorized)
    else if Suspect(users[actorId]) then Some(Restricted)
    else if users[actorId].role == USER && users[actorId].department != Some(SALES) then Some(WrongDepartment)
    else None
  }

  lemma AdmittedExactly(db: Db, actorId: Id)
    ensures Admit(db.users, actorId) ==
      match Refusal(db.users, actorId) case Some(e) => Denied(e) case None => Admitted(db.users[actorId])
    ensures Refusal(db.users, actorId) == None <==> actorId in db.users && SellsNow(db.users[actorId])
  {
  }

  /** Anybody else is refused with the error of the first reason, sees no command and changes nothing. */
  lemma OthersAreRefused(db: Db, req: Request, stamp: Stamp)
    requires Refusal(db.users, req.actorId).Some?
    ensures Execute(db, req, stamp) == (db, Failure(Refusal(db.users, req.actorId).value))
    ensures Observe(db, req.actorId, req.commandId) == Failure(Refusal(db.users, req.actorId).value)
  {
    AdmittedExactly(db, req.actorId);
  }

  /** Whoever gets an answer other than a refusal, or changes a table, is stored as sales staff at that moment. */
  lemma OnlySalesStaffIsServed(db: Db, req: Request, stamp: Stamp)
    requires Execute(db, req, stamp).1.Success? || Execute(db, req, stamp).0 != db
      || Observe(db, req.actorId, req.commandId).Success?
    ensures req.actorId in db.users && SellsNow(db.users[req.actorId])
  {
    AdmittedExactly(db, req.actorId);
    if Refusal(db.users, req.actorId).Some? { OthersAreRefused(db, req, stamp); }
  }

  // --- What the request schemas hand over ---

  predicate NotBlank(s: Option<string>) {
    s.Some? ==> !Texts.IsBlank(s.value)
  }

  predicate NoBlankText(t: DraftTexts) {
    NotBlank(t.generalNotes) && NotBlank(t.responsibleSignature) && NotBlank(t.repairNote)
    && NotBlank(t.adjustmentRequested) && NotBlank(t.adjustmentReason) && NotBlank(t.adjustmentActionTaken)
  }

  predicate NoBlankValue(v: PieceValues) {
    && NotBlank(v.model) && NotBlank(v.size) && NotBlank(v.leatherBase) && NotBlank(v.decoration)
    && NotBlank(v.decorationColor) && NotBlank(v.faceRight) && NotBlank(v.faceLeft) && NotBlank(v.mixing)
    && NotBlank(v.face) && NotBlank(v.sole) && NotBlank(v.soleAddition) && NotBlank(v.soleColor)
    && NotBlank(v.additions) && NotBlank(v.aField) && NotBlank(v.fField) && NotBlank(v.sideNotes)
  }

  /** A real date, an amount that its own entry rule leaves alone, no blank text, and 1 to 200 different pieces. */
  predicate HandedOver(c: DraftCapture) {
    && (c.deliveryDate.Some? ==> DateOnly.IsDateOnlyString(c.deliveryDate.value))
    && (c.paidAmount.Some? ==> PaidAmount.ParseEntry(c.paidAmount.value) == PaidAmount.Amount(c.paidAmount.value))
    && NoBlankText(c.texts) && 1 <= |c.pieces| <= 200
    && DifferentIds(c.pieces) && NoBlankPiece(c.pieces)
  }

  lemma TextsTidyExactly(t: DraftTexts)
    ensures TidyTexts(t) == t <==> NoBlankText(t)
  {
  }

  lemma ValuesTidyExactly(v: PieceValues)
    ensures TidyValues(v) == v <==> NoBlankValue(v)
  {
  }

  lemma PaidAcceptedExactly(s: Option<string>)
    ensures AcceptedPaid(s) <==> (s.Some? ==> PaidAmount.ParseEntry(s.value) == PaidAmount.Amount(s.value))
  {
    if s.Some? && PaidAmount.Normal(s.value) { PaidAmount.NormalFormIsFixed(s.value); }
  }

  predicate DifferentIds(pieces: seq<PieceCapture>) {
    forall i, j | 0 <= i < j < |pieces| :: pieces[i].id != pieces[j].id
  }

  lemma DistinctExactly(pieces: seq<PieceCapture>)
    ensures Distinct(Ids(pieces)) <==> DifferentIds(pieces)
  {
    if Distinct(Ids(pieces)) {
      forall i, j | 0 <= i < j < |pieces| ensures pieces[i].id != pieces[j].id {
        assert Ids(pieces)[i] != Ids(pieces)[j];
      }
    }
  }

  predicate NoBlankPiece(pieces: seq<PieceCapture>) {
    forall i | 0 <= i < |pieces| :: NoBlankValue(pieces[i].values)
  }

  predicate TidyCapture(pieces: seq<PieceCapture>) {
    forall i | 0 <= i < |pieces| :: TidyValues(pieces[i].values) == pieces[i].values
  }

  lemma PiecesTidyExactly(pieces: seq<PieceCapture>)
    ensures TidyCapture(pieces) <==> NoBlankPiece(pieces)
  {
    forall i | 0 <= i < |pieces| ensures TidyValues(pieces[i].values) == pieces[i].values <==> NoBlankValue(pieces[i].values) {
      ValuesTidyExactly(pieces[i].values);
    }
  }

  lemma CaptureAcceptedExactly(c: DraftCapture)
    ensures Accepted(c) <==> HandedOver(c)
  {
    TextsTidyExactly(c.texts);
    PaidAcceptedExactly(c.paidAmount);
    DistinctExactly(c.pieces);
    PiecesTidyExactly(c.pieces);
    AcceptedParts(c);
  }

  lemma AcceptedParts(c: DraftCapture)
    ensures Accepted(c) <==>
      AcceptedDate(c.deliveryDate) && AcceptedPaid(c.paidAmount) && TidyTexts(c.texts) == c.texts
      && 1 <= |c.pieces| <= MAX_DRAFT_PIECES && Distinct(Ids(c.pieces)) && TidyCapture(c.pieces)
  {
  }

  /** The commands that reach the executor: any customer capture or patch, any such draft, any version the column can hold. */
  lemma IntentAcceptedExactly(i: Intent)
    ensures AcceptedIntent(i) <==>
      match i
      case CreateCustomer(_) => true
      case UpdateCustomer(_, v, _) => 1 <= v <= 2147483647
      case CreateDraft(c) => HandedOver(c)
      case SaveDraft(_, v, c) => 1 <= v <= 2147483647 && HandedOver(c)
  {
    if i.CreateDraft? || i.SaveDraft? { CaptureAcceptedExactly(i.draft); }
  }

  // --- A new command ---

  /** An accepted command of sales staff with a new command id, and a new identifier at hand. */
  ghost predicate New(l: Ledger, req: Request, stamp: Stamp) {
    && LedgerHolds(l) && AcceptedIntent(req.intent) && req.commandId !in l.db.commands
    && req.actorId in l.db.users && SellsNow(l.db.users[req.actorId])
    && stamp.freshId !in l.db.customers && stamp.freshId !in l.db.drafts
  }

  predicate Served(x: (Db, Outcome), tables: Db, now: Instant) {
    x.1.Success? && x.1.data.receipt.occurredAt == now && x.0.(commands := tables.commands) == tables
  }

  /** A new command answers as its work does: a refusal changes nothing, and done work is always a success. */
  lemma WorkDecides(l: Ledger, req: Request, stamp: Stamp)
    requires New(l, req, stamp)
    ensures
      var actor := l.db.users[req.actorId];
      var w := Perform(l.db, actor, req.intent, stamp);
      && actor.id == req.actorId
      && (w.Refused? ==> Execute(l.db, req, stamp) == (l.db, Failure(w.error)))
      && (w.Done? ==> Served(Execute(l.db, req, stamp), TablesAfter(l.db, w), stamp.now))
  {
    var actor := l.db.users[req.actorId];
    var w := Perform(l.db, actor, req.intent, stamp);
    AdmittedExactly(l.db, req.actorId);
    if w.Done? {
      FreshRecordMaps(l.db, req, actor, stamp);
      ExecuteStores(l.db, req, actor, stamp, w, RecordOf(req, actor, w.before, w.after, stamp.now));
    }
  }

  predicate PhoneInUse(customers: map<Id, Customer>, phone: string, except: Option<Id>) {
    exists c | c in customers :: Some(c) != except && customers[c].phone == phone
  }

  /** A customer is created exactly when nobody has the phone, and otherwise it is a phone conflict. */
  lemma CreateCustomerAnswers(l: Ledger, req: Request, stamp: Stamp)
    requires New(l, req, stamp) && req.intent.CreateCustomer?
    ensures
      var taken := PhoneInUse(l.db.customers, req.intent.customer.phone, None);
      && (taken ==> Execute(l.db, req, stamp) == (l.db, Failure(CustomerPhoneConflict)))
      && (!taken ==> Execute(l.db, req, stamp).1.Success?)
  {
    WorkDecides(l, req, stamp);
    var phone := req.intent.customer.phone;
    if c :| c in l.db.customers && l.db.customers[c].phone == phone { assert c != stamp.freshId; }
  }

  /** An update succeeds exactly at the stored version, below the limit, unless another customer has the new phone. */
  lemma UpdateCustomerAnswers(l: Ledger, req: Request, stamp: Stamp)
    requires New(l, req, stamp) && req.intent.UpdateCustomer?
    ensures
      var id, patch, x := req.intent.customerId, req.intent.patch, Execute(l.db, req, stamp);
      var known := id in l.db.customers;
      var current := known && l.db.customers[id].version == req.intent.expected < MAX_VERSION;
      var taken := patch.phone.Put? && PhoneInUse(l.db.customers, patch.phone.value, Some(id));
      && (!known ==> x == (l.db, Failure(CustomerNotFound)))
      && (known && !current ==> x == (l.db, Failure(CustomerVersionConflict)))
      && (current && taken ==> x == (l.db, Failure(CustomerPhoneConflict)))
      && (current && !taken ==> x.1.Success?)
  {
    WorkDecides(l, req, stamp);
    assert CustomersHold(l.db.customers);
  }

  // --- The pieces of a draft command ---

  /** The submitted id is new, or an active piece of this draft. */
  predicate Fits(t: PieceTable, id: Id, d: Id) {
    id in t ==> t[id].draftId == d && t[id].removedAt == None
  }

  predicate AllFit(t: PieceTable, capture: seq<PieceCapture>, d: Id) {
    forall i | 0 <= i < |capture| :: Fits(t, capture[i].id, d)
  }

  predicate FirstMisfit(t: PieceTable, capture: seq<PieceCapture>, d: Id, i: nat) {
    i < |capture| && !Fits(t, capture[i].id, d) && forall j | 0 <= j < i :: Fits(t, capture[j].id, d)
  }

  lemma {:induction false} MisfitExists(t: PieceTable, capture: seq<PieceCapture>, d: Id) returns (i: nat)
    requires !AllFit(t, capture, d)
    ensures FirstMisfit(t, capture, d, i)
  {
    var front := capture[..|capture| - 1];
    if AllFit(t, front, d) {
      i := |capture| - 1;
      assert forall j | 0 <= j < i :: capture[j] == front[j];
    } else {
      i := MisfitExists(t, front, d);
      assert forall j | 0 <= j <= i :: capture[j] == front[j];
    }
  }

  /** The earliest id that does not fit decides: of another draft, or removed from this one. */
  lemma PlanningTells(t: PieceTable, capture: seq<PieceCapture>, d: Id)
    requires 1 <= |capture| <= MAX_DRAFT_PIECES && Distinct(Ids(capture))
    ensures AllFit(t, capture, d) ==> PlanPieces(t, d, capture) == Planned
    ensures forall i: nat | FirstMisfit(t, capture, d, i) ::
      PlanPieces(t, d, capture) == PlanRefused(if t[capture[i].id].draftId != d then DraftNotFound else DraftPieceConflict)
  {
    forall i: nat | FirstMisfit(t, capture, d, i) ensures
      FirstObstacle(Identities(t), Ids(capture), d) == if t[capture[i].id].draftId != d then OwnedElsewhere else AlreadyRemoved
    {
      forall j | 0 <= j < i ensures ObstacleAt(Identities(t), Ids(capture)[j], d) == Clear {
        assert Fits(t, capture[j].id, d);
      }
      FirstObstacleIs(Identities(t), Ids(capture), d, i);
    }
  }

  /** The refusal that the earliest misfit asks for. */
  predicate NamesMisfit(t: PieceTable, capture: seq<PieceCapture>, d: Id, o: Outcome) {
    o.Failure? && exists i | 0 <= i < |capture| ::
      FirstMisfit(t, capture, d, i) && o.error == if t[capture[i].id].draftId != d then DraftNotFound else DraftPieceConflict
  }

  lemma MisfitTells(t: PieceTable, capture: seq<PieceCapture>, d: Id)
    requires 1 <= |capture| <= MAX_DRAFT_PIECES && Distinct(Ids(capture))
    ensures AllFit(t, capture, d) ==> PlanPieces(t, d, capture) == Planned
    ensures !AllFit(t, capture, d) ==>
      PlanPieces(t, d, capture).PlanRefused? && NamesMisfit(t, capture, d, Failure(PlanPieces(t, d, capture).error))
  {
    PlanningTells(t, capture, d);
    if !AllFit(t, capture, d) { var i := MisfitExists(t, capture, d); }
  }

  // --- Draft commands ---

  predicate LinkExists(customers: map<Id, Customer>, id: Option<Id>) {
    id.Some? ==> id.value in customers
  }

  lemma CreateRefusedByPlan(db: Db, actor: Account, c: DraftCapture, stamp: Stamp, e: SalesError)
    requires CustomersExist(db.customers, Linked(c.customerId)) && PlanPieces(db.pieces, stamp.freshId, c.pieces) == PlanRefused(e)
    ensures PerformCreateDraft(db, actor, c, stamp) == Refused(e)
  {
  }

  lemma CreateUnfolds(db: Db, actor: Account, c: DraftCapture, stamp: Stamp)
    requires CustomersExist(db.customers, Linked(c.customerId)) && PlanPieces(db.pieces, stamp.freshId, c.pieces) == Planned
    requires StoreHeader(c).Some? && stamp.freshId !in db.drafts
    ensures PerformCreateDraft(db, actor, c, stamp)
      == FinishDraft(db, stamp.freshId, CreatedRow(actor, c, stamp.now), c, None, stamp)
  {
  }

  lemma CreateDoneByPlan(db: Db, actor: Account, c: DraftCapture, stamp: Stamp)
    requires CustomersExist(db.customers, Linked(c.customerId)) && PlanPieces(db.pieces, stamp.freshId, c.pieces) == Planned
    requires Accepted(c) && stamp.freshId !in db.drafts
    ensures PerformCreateDraft(db, actor, c, stamp).Done?
  {
    HeadersAreStored(c);
    CreateUnfolds(db, actor, c, stamp);
    FinishSucceeds(db, stamp.freshId, CreatedRow(actor, c, stamp.now), c, None, stamp);
  }

  lemma UnlinkedCreate(db: Db, actor: Account, c: DraftCapture, stamp: Stamp)
    requires !LinkExists(db.customers, c.customerId)
    ensures PerformCreateDraft(db, actor, c, stamp) == Refused(CustomerNotFound)
  {
    assert c.customerId.value in Linked(c.customerId);
  }

  lemma CheckedCreate(db: Db, actor: Account, c: DraftCapture, stamp: Stamp)
    requires Accepted(c) && stamp.freshId !in db.drafts && LinkExists(db.customers, c.customerId)
    ensures
      var plan, w := PlanPieces(db.pieces, stamp.freshId, c.pieces), PerformCreateDraft(db, actor, c, stamp);
      if plan.PlanRefused? then w == Refused(plan.error) else w.Done?
  {
    match PlanPieces(db.pieces, stamp.freshId, c.pieces)
    case PlanRefused(e) => CreateRefusedByPlan(db, actor, c, stamp, e);
    case Planned => CreateDoneByPlan(db, actor, c, stamp);
  }

  lemma NewDraftHasNoPieces(t: PieceTable, capture: seq<PieceCapture>, d: Id)
    requires forall p | p in t :: t[p].draftId != d
    ensures AllFit(t, capture, d) <==> forall i | 0 <= i < |capture| :: capture[i].id !in t
  {
    if forall i | 0 <= i < |capture| :: capture[i].id !in t {
    } else {
      var i :| 0 <= i < |capture| && capture[i].id in t;
      assert !Fits(t, capture[i].id, d);
    }
  }

  /** A draft is created exactly when its customer exists and none of its piece ids is in use. */
  lemma CreateDraftAnswers(l: Ledger, req: Request, stamp: Stamp)
    requires New(l, req, stamp) && req.intent.CreateDraft?
    ensures
      var c, x := req.intent.draft, Execute(l.db, req, stamp);
      var linked := LinkExists(l.db.customers, c.customerId);
      var unused := forall i | 0 <= i < |c.pieces| :: c.pieces[i].id !in l.db.pieces;
      && (!linked ==> x == (l.db, Failure(CustomerNotFound)))
      && (linked && !unused ==> x == (l.db, Failure(DraftNotFound)))
      && (linked && unused ==> x.1.Success?)
  {
    var c, d, t := req.intent.draft, stamp.freshId, l.db.pieces;
    WorkDecides(l, req, stamp);
    assert forall p | p in t :: t[p].draftId in l.db.drafts;
    NewDraftHasNoPieces(t, c.pieces, d);
    PlanningTells(t, c.pieces, d);
    if !AllFit(t, c.pieces, d) { var i := MisfitExists(t, c.pieces, d); }
    if LinkExists(l.db.customers, c.customerId) {
      CheckedCreate(l.db, l.db.users[req.actorId], c, stamp);
    } else {
      UnlinkedCreate(l.db, l.db.users[req.actorId], c, stamp);
    }
  }

  predicate MaySee(actor: Account, db: Db, d: Id) {
    d in db.drafts && (actor.role == ADMIN || db.drafts[d].ownerId == actor.id)
  }

  lemma RefusedByPlan(db: Db, actor: Account, d: Id, v: nat, c: DraftCapture, stamp: Stamp, e: SalesError)
    requires PassesChecks(db, actor, d, v, c) && MapDraft(db.customers, db.pieces, d, db.drafts[d], stamp.ownerBefore).Some?
    requires PlanPieces(db.pieces, d, c.pieces) == PlanRefused(e)
    ensures PerformSaveDraft(db, actor, d, v, c, stamp) == Refused(e)
  {
  }

  lemma DoneByPlan(db: Db, actor: Account, d: Id, v: nat, c: DraftCapture, stamp: Stamp)
    requires PassesChecks(db, actor, d, v, c) && MapDraft(db.customers, db.pieces, d, db.drafts[d], stamp.ownerBefore).Some?
    requires PlanPieces(db.pieces, d, c.pieces) == Planned && Accepted(c)
    ensures PerformSaveDraft(db, actor, d, v, c, stamp).Done?
  {
    var before := MapDraft(db.customers, db.pieces, d, db.drafts[d], stamp.ownerBefore).value;
    HeadersAreStored(c);
    PlannedSaveIsDone(db, actor, d, v, c, before, stamp);
    FinishSucceeds(db, d, SavedRow(db.drafts[d], c, stamp.now), c, Some(DraftImage(before)), stamp);
  }

  lemma ChecksPass(db: Db, actor: Account, d: Id, v: nat, c: DraftCapture)
    requires TablesHold(db) && MaySee(actor, db, d) && db.drafts[d].version == v < MAX_VERSION && LinkExists(db.customers, c.customerId)
    ensures PassesChecks(db, actor, d, v, c)
  {
    LinkedStays(db, d);
  }

  lemma CheckedSave(l: Ledger, actor: Account, d: Id, v: nat, c: DraftCapture, stamp: Stamp)
    requires LedgerHolds(l) && Accepted(c) && PassesChecks(l.db, actor, d, v, c)
    ensures
      var plan, w := PlanPieces(l.db.pieces, d, c.pieces), PerformSaveDraft(l.db, actor, d, v, c, stamp);
      if plan.PlanRefused? then w == Refused(plan.error) else w.Done?
  {
    RowsAreShown(l, d, stamp.ownerBefore);
    match PlanPieces(l.db.pieces, d, c.pieces)
    case PlanRefused(e) => RefusedByPlan(l.db, actor, d, v, c, stamp, e);
    case Planned => DoneByPlan(l.db, actor, d, v, c, stamp);
  }

  lemma LinkedStays(db: Db, d: Id)
    requires TablesHold(db) && d in db.drafts
    ensures CustomersExist(db.customers, Linked(db.drafts[d].header.customerId))
  {
    assert LinksHold(db.customers, db.drafts);
  }

  lemma HiddenSave(db: Db, actor: Account, d: Id, v: nat, c: DraftCapture, stamp: Stamp)
    requires !MaySee(actor, db, d)
    ensures PerformSaveDraft(db, actor, d, v, c, stamp) == Refused(DraftNotFound)
  {
  }

  lemma StaleSave(db: Db, actor: Account, d: Id, v: nat, c: DraftCapture, stamp: Stamp)
    requires MaySee(actor, db, d) && InRange(db.drafts[d].version) && !(db.drafts[d].version == v < MAX_VERSION)
    ensures PerformSaveDraft(db, actor, d, v, c, stamp) == Refused(DraftVersionConflict)
  {
  }

  lemma UnlinkedSave(db: Db, actor: Account, d: Id, v: nat, c: DraftCapture, stamp: Stamp)
    requires MaySee(actor, db, d) && db.drafts[d].version == v < MAX_VERSION && !LinkExists(db.customers, c.customerId)
    ensures PerformSaveDraft(db, actor, d, v, c, stamp) == Refused(CustomerNotFound)
  {
    assert c.customerId.value in Linked(c.customerId);
  }

  lemma UncheckedSave(db: Db, actor: Account, d: Id, v: nat, c: DraftCapture, stamp: Stamp)
    requires TablesHold(db)
    ensures
      var w := PerformSaveDraft(db, actor, d, v, c, stamp);
      if !MaySee(actor, db, d) then w == Refused(DraftNotFound)
      else if !(db.drafts[d].version == v < MAX_VERSION) then w == Refused(DraftVersionConflict)
      else !LinkExists(db.customers, c.customerId) ==> w == Refused(CustomerNotFound)
  {
    if !MaySee(actor, db, d) {
      HiddenSave(db, actor, d, v, c, stamp);
    } else if !(db.drafts[d].version == v < MAX_VERSION) {
      assert DraftsHold(db.drafts, db.pieces);
      StaleSave(db, actor, d, v, c, stamp);
    } else if !LinkExists(db.customers, c.customerId) {
      UnlinkedSave(db, actor, d, v, c, stamp);
    }
  }

  /**
   A save succeeds exactly for an administrator or the owner, at the stored version below the limit, with a customer
   that exists and pieces that all fit; otherwise the first of these that fails names the refusal.
   */
  lemma SaveDraftAnswers(l: Ledger, req: Request, stamp: Stamp)
    requires New(l, req, stamp) && req.intent.SaveDraft?
    ensures
      var d, c, x := req.intent.draftId, req.intent.draft, Execute(l.db, req, stamp);
      var mine := MaySee(l.db.users[req.actorId], l.db, d);
      var current := mine && l.db.drafts[d].version == req.intent.expected < MAX_VERSION;
      var linked := current && LinkExists(l.db.customers, c.customerId);
      && (!mine ==> x == (l.db, Failure(DraftNotFound)))
      && (mine && !current ==> x == (l.db, Failure(DraftVersionConflict)))
      && (current && !linked ==> x == (l.db, Failure(CustomerNotFound)))
      && (linked && !AllFit(l.db.pieces, c.pieces, d) ==> x.0 == l.db && NamesMisfit(l.db.pieces, c.pieces, d, x.1))
      && (linked && AllFit(l.db.pieces, c.pieces, d) ==> x.1.Success?)
  {
    var actor, d, v, c := l.db.users[req.actorId], req.intent.draftId, req.intent.expected, req.intent.draft;
    WorkDecides(l, req, stamp);
    UncheckedSave(l.db, actor, d, v, c, stamp);
    if MaySee(actor, l.db, d) && l.db.drafts[d].version == v < MAX_VERSION && LinkExists(l.db.customers, c.customerId) {
      ChecksPass(l.db, actor, d, v, c);
      CheckedSave(l, actor, d, v, c, stamp);
      MisfitTells(l.db.pieces, c.pieces, d);
    }
  }

  // --- What a draft command leaves behind ---

  lemma DraftWorkRewrites(db: Db, actor: Account, intent: Intent, stamp: Stamp)
    requires (intent.CreateDraft? || intent.SaveDraft?) && Perform(db, actor, intent, stamp).Done?
    ensures
      var d := match intent case SaveDraft(d, _, _) => d case _ => stamp.freshId;
      && Perform(db, actor, intent, stamp).pieces == Rewritten(db.pieces, d, CaptureOf(intent).pieces, stamp.now)
      && PlanPieces(db.pieces, d, CaptureOf(intent).pieces) == Planned
  {
    match intent
    case CreateDraft(c) => CreateDraftUnfolds(db, actor, c, stamp);
    case SaveDraft(d, v, c) => SaveDraftUnfolds(db, actor, d, v, c, stamp);
  }

  lemma PlannedPiecesHaveFates(t: PieceTable, d: Id, capture: seq<PieceCapture>, now: Instant)
    requires PlanPieces(t, d, capture) == Planned
    ensures EveryFate(t, Rewritten(t, d, capture, now), d, capture, now)
  {
    ClearMeansAdmissible(t, Ids(capture), d);
    EveryPieceHasItsFate(t, d, capture, now);
  }

  /** The summary of the linked customer, as it is stored. */
  predicate SummaryTells(customers: map<Id, Customer>, link: Option<Id>, shown: Option<CustomerSummary>) {
    match link
    case None => shown == None
    case Some(c) =>
      c in customers && shown == Some(CustomerSummary(c, customers[c].name, customers[c].phone, customers[c].email, customers[c].address))
  }

  /** A draft command that succeeds gives every piece its fate and shows the stored customer. */
  lemma DraftCommandTells(l: Ledger, req: Request, stamp: Stamp)
    requires New(l, req, stamp) && (req.intent.CreateDraft? || req.intent.SaveDraft?)
    requires Execute(l.db, req, stamp).1.Success?
    ensures
      var (after, o), c := Execute(l.db, req, stamp), CaptureOf(req.intent);
      && o.data.saved.DraftImage? && o.data.receipt.occurredAt == stamp.now
      && EveryFate(l.db.pieces, after.pieces, o.data.saved.draft.id, c.pieces, stamp.now)
      && SummaryTells(l.db.customers, c.customerId, o.data.saved.draft.customer)
  {
    var actor := l.db.users[req.actorId];
    var d := match req.intent case SaveDraft(d, _, _) => d case _ => stamp.freshId;
    WorkDecides(l, req, stamp);
    SavedDraftReadsBack(l, req, stamp);
    DraftWorkRewrites(l.db, actor, req.intent, stamp);
    PlannedPiecesHaveFates(l.db.pieces, d, CaptureOf(req.intent).pieces, stamp.now);
    LinkTells(l, Execute(l.db, req, stamp).1.data.saved, CaptureOf(req.intent));
  }

  lemma LinkTells(l: Ledger, saved: Image, c: DraftCapture)
    requires CustomersHold(l.db.customers) && ShowsAll(saved, c) && saved.draft.customer == LinkedCustomer(l.db.customers, c.customerId)
    ensures SummaryTells(l.db.customers, c.customerId, saved.draft.customer)
  {
  }

  // --- What a record must be to be answered ---

  predicate Revises(r: Record) {
    if r.operation == CREATE_CUSTOMER || r.operation == CREATE_DRAFT then r.beforeVersion == None && r.afterVersion == 1
    else r.beforeVersion.Some? && 1 <= r.beforeVersion.value && r.afterVersion == r.beforeVersion.value + 1
  }

  /** The draft an answer may show: one to two hundred different pieces, a real date, and an amount as a person may type it. */
  predicate ShowableDraft(d: DraftDto) {
    && 1 <= |d.pieces| <= 200 && (forall i, j | 0 <= i < j < |d.pieces| :: d.pieces[i].id != d.pieces[j].id)
    && (forall i | 0 <= i < |d.pieces| :: d.pieces[i].position >= 1)
    && (d.deliveryDate.Some? ==> DateOnly.IsDateOnlyString(d.deliveryDate.value))
    && (d.paidAmount.Some? ==> !PaidAmount.ParseEntry(d.paidAmount.value).Refused?)
  }

  predicate FitsItsImage(r: Record) {
    match r.after
    case CustomerImage(c) =>
      r.operation in {CREATE_CUSTOMER, UPDATE_CUSTOMER} && r.customerId == Some(c.id) && r.afterVersion == c.version
    case DraftImage(d) =>
      r.operation in {CREATE_DRAFT, SAVE_DRAFT} && r.draftId == Some(d.id) && r.afterVersion == d.version && ShowableDraft(d)
  }

  /** A record is answered exactly when it is a revision by sales staff, in range, that fits its own image. */
  lemma MappedExactly(r: Record, replayed: bool)
    ensures MapResult(r, replayed).Success? <==>
      Revises(r) && r.afterVersion <= MAX_VERSION && (r.actorRole == ADMIN || r.actorDepartment == Some(SALES)) && FitsItsImage(r)
    ensures MapResult(r, replayed).Failure? ==> MapResult(r, replayed).error == InternalError
  {
    match r.after
    case CustomerImage(c) =>
    case DraftImage(d) => ParsedExactly(d);
  }

  lemma ParsedExactly(d: DraftDto)
    ensures ParseDraft(d).Some? <==> 1 <= d.version <= MAX_VERSION && ShowableDraft(d)
  {
    if Distinct(ImageIds(d.pieces)) {
      forall i, j | 0 <= i < j < |d.pieces| ensures d.pieces[i].id != d.pieces[j].id {
        assert ImageIds(d.pieces)[i] != ImageIds(d.pieces)[j];
      }
    }
  }

  // --- A command that is already retained ---

  predicate SameCommand(r: Record, req: Request) {
    && r.actorId == req.actorId && r.operation == OperationOf(req.intent) && r.requestTargetId == TargetOf(req.intent)
    && r.expectedVersion == ExpectedOf(req.intent) && r.payload == req.intent
  }

  /** The resource of the record: a draft that the actor may see, or a customer. */
  predicate InSight(db: Db, actor: Account, r: Record) {
    if r.draftId.Some? then MaySee(actor, db, r.draftId.value) else r.customerId.Some? && r.customerId.value in db.customers
  }

  /** What a retained record answers: its own columns and its stored image. */
  predicate AnswersFrom(o: Outcome, r: Record) {
    && o.Success? && o.data.replayed && o.data.saved == r.after
    && o.data.receipt.commandId == r.commandId && o.data.receipt.operation == r.operation
    && o.data.receipt.actorId == r.actorId && o.data.receipt.actorFullName == r.actorFullName
    && o.data.receipt.actorRole == r.actorRole && o.data.receipt.actorDepartment == r.actorDepartment
    && o.data.receipt.beforeVersion == r.beforeVersion && o.data.receipt.afterVersion == r.afterVersion
    && o.data.receipt.occurredAt == r.occurredAt && o.data.receipt.resourceId == ImageId(r.after)
  }

  lemma RetainedAnswersFrom(l: Ledger, id: Id)
    requires LedgerHolds(l) && id in l.db.commands
    ensures AnswersFrom(MapResult(l.db.commands[id], true), l.db.commands[id])
  {
    assert MapsCleanly(l.db.commands[id]);
  }

  lemma SeenExactly(db: Db, actor: Account, r: Record)
    ensures Visible(db, actor, r) <==> InSight(db, actor, r)
  {
  }

  lemma ReplayUnfolds(db: Db, req: Request, stamp: Stamp, actor: Account, r: Record)
    requires Admit(db.users, req.actorId) == Admitted(actor) && req.commandId in db.commands && db.commands[req.commandId] == r
    ensures Execute(db, req, stamp).0 == db
    ensures !SameCommand(r, req) ==> Execute(db, req, stamp).1 == Failure(CommandConflict)
    ensures SameCommand(r, req) && !Visible(db, actor, r) ==> Execute(db, req, stamp).1 == Failure(CommandNotFound)
    ensures SameCommand(r, req) && Visible(db, actor, r) ==> Execute(db, req, stamp).1 == MapResult(r, true)
  {
  }

  predicate ReplayTells(db: Db, actor: Account, req: Request, r: Record, o: Outcome) {
    if !SameCommand(r, req) then o == Failure(CommandConflict)
    else if !InSight(db, actor, r) then o == Failure(CommandNotFound)
    else AnswersFrom(o, r)
  }

  /** Sent again, a retained command is a conflict for other content, hidden with its resource, and otherwise answered. */
  lemma RetainedAnswers(l: Ledger, req: Request, stamp: Stamp)
    requires LedgerHolds(l) && req.commandId in l.db.commands
    requires req.actorId in l.db.users && SellsNow(l.db.users[req.actorId])
    ensures Execute(l.db, req, stamp).0 == l.db
    ensures ReplayTells(l.db, l.db.users[req.actorId], req, l.db.commands[req.commandId], Execute(l.db, req, stamp).1)
  {
    var actor, r := l.db.users[req.actorId], l.db.commands[req.commandId];
    AdmittedExactly(l.db, req.actorId);
    ReplayUnfolds(l.db, req, stamp, actor, r);
    SeenExactly(l.db, actor, r);
    RetainedAnswersFrom(l, req.commandId);
  }

  lemma ActorIsNamed(users: map<Id, Account>, actorId: Id)
    requires (forall u | u in users :: users[u].id == u) && actorId in users
    ensures users[actorId].id == actorId
  {
  }

  predicate Retained(db: Db, actorId: Id, commandId: Id) {
    commandId in db.commands && db.commands[commandId].actorId == actorId
  }

  lemma ObserveUnfolds(db: Db, actor: Account, commandId: Id)
    requires Admit(db.users, actor.id) == Admitted(actor)
    ensures !Retained(db, actor.id, commandId) ==> Observe(db, actor.id, commandId) == Failure(CommandNotFound)
    ensures Retained(db, actor.id, commandId) && !Visible(db, actor, db.commands[commandId]) ==>
      Observe(db, actor.id, commandId) == Failure(CommandNotFound)
    ensures Retained(db, actor.id, commandId) && Visible(db, actor, db.commands[commandId]) ==>
      Observe(db, actor.id, commandId) == MapResult(db.commands[commandId], true)
  {
  }

  /** An observation shows a command to its own actor while the resource is in sight, and nothing else to anybody. */
  lemma ObservationAnswers(l: Ledger, actorId: Id, commandId: Id)
    requires LedgerHolds(l) && actorId in l.db.users && SellsNow(l.db.users[actorId])
    ensures
      if Retained(l.db, actorId, commandId) && InSight(l.db, l.db.users[actorId], l.db.commands[commandId])
      then AnswersFrom(Observe(l.db, actorId, commandId), l.db.commands[commandId])
      else Observe(l.db, actorId, commandId) == Failure(CommandNotFound)
  {
    var actor := l.db.users[actorId];
    AdmittedExactly(l.db, actorId);
    ActorIsNamed(l.db.users, actorId);
    ObserveUnfolds(l.db, actor, commandId);
    if commandId in l.db.commands {
      SeenExactly(l.db, actor, l.db.commands[commandId]);
      RetainedAnswersFrom(l, commandId);
    }
  }
}

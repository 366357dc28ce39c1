/** What a caller may rely on: exactly-once commands, faithful observation, and a complete receipt log. */
module SalesTheorems {
  import opened Foundations
  import opened Accounts
  import opened DraftPieces
  import opened PieceRewrite
  import opened SalesModel
  import opened SalesReadBack
  import opened SalesHistory

  // --- Nothing retained is ever lost ---

  /** Later tables keep every record, every customer, every draft with its owner, and every piece with its draft. */
  ghost predicate Extends(a: Db, b: Db) {
    && (forall id | id in a.commands :: id in b.commands && b.commands[id] == a.commands[id])
    && (forall id | id in a.customers :: id in b.customers)
    && (forall id | id in a.drafts :: id in b.drafts && b.drafts[id].ownerId == a.drafts[id].ownerId)
    && PieceLivesOn(a.pieces, b.pieces)
  }

  lemma FinishExtends(db: Db, id: Id, row: DraftRow, c: DraftCapture, before: Option<Image>, stamp: Stamp)
    requires FinishDraft(db, id, row, c, before, stamp).Done?
    requires id in db.drafts ==> db.drafts[id].ownerId == row.ownerId
    ensures Extends(db, TablesAfter(db, FinishDraft(db, id, row, c, before, stamp)))
  {
    RewriteKeepsIdentity(db.pieces, id, c.pieces, stamp.now);
  }

  lemma CustomerWorkExtends(db: Db, actor: Account, intent: Intent, stamp: Stamp)
    requires ForCustomer(OperationOf(intent)) && Perform(db, actor, intent, stamp).Done?
    ensures Extends(db, TablesAfter(db, Perform(db, actor, intent, stamp)))
  {
  }

  lemma PerformExtends(db: Db, actor: Account, intent: Intent, stamp: Stamp)
    requires Perform(db, actor, intent, stamp).Done?
    ensures Extends(db, TablesAfter(db, Perform(db, actor, intent, stamp)))
  {
    match intent
    case CreateDraft(c) =>
      CreateDraftUnfolds(db, actor, c, stamp);
      FinishExtends(db, stamp.freshId, CreatedRow(actor, c, stamp.now), c, None, stamp);
    case SaveDraft(id, v, c) =>
      SaveDraftUnfolds(db, actor, id, v, c, stamp);
      FinishExtends(db, id, SavedRow(db.drafts[id], c, stamp.now), c,
        Some(DraftImage(MapDraft(db.customers, db.pieces, id, db.drafts[id], stamp.ownerBefore).value)), stamp);
    case _ => CustomerWorkExtends(db, actor, intent, stamp);
  }

  lemma RecordingExtends(a: Db, b: Db, id: Id, r: Record)
    requires Extends(a, b) && b.commands == a.commands && id !in a.commands
    ensures Extends(a, b.(commands := b.commands[id := r]))
  {
  }

  lemma FulfilExtends(db: Db, actor: Account, req: Request, stamp: Stamp)
    requires req.commandId !in db.commands
    ensures Extends(db, Fulfil(db, actor, req, stamp).0)
  {
    var w := Perform(db, actor, req.intent, stamp);
    if w.Done? {
      PerformExtends(db, actor, req.intent, stamp);
      RecordingExtends(db, TablesAfter(db, w), req.commandId, RecordOf(req, actor, w.before, w.after, stamp.now));
    }
  }

  lemma CommitExtends(l: Ledger, req: Request, stamp: Stamp)
    ensures Extends(l.db, Commit(l, req, stamp).db)
  {
    var admission := Admit(l.db.users, req.actorId);
    if admission.Admitted? && req.commandId !in l.db.commands {
      FulfilExtends(l.db, admission.actor, req, stamp);
    }
  }

  lemma {:induction false} RunExtends(l: Ledger, events: seq<Event>)
    ensures Extends(l.db, Run(l, events).db)
  {
    if events != [] {
      var front, last := events[..|events| - 1], events[|events| - 1];
      RunExtends(l, front);
      if last.Call? { CommitExtends(Run(l, front), last.req, last.stamp); }
    }
  }

  /** Piece identity for life: over every run a piece keeps its draft, and a removed row stays as it is. */
  lemma PieceKeepsItsDraftForLife(l: Ledger, events: seq<Event>, p: Id)
    requires p in l.db.pieces
    ensures p in Run(l, events).db.pieces && Run(l, events).db.pieces[p].draftId == l.db.pieces[p].draftId
    ensures l.db.pieces[p].removedAt != None ==> Run(l, events).db.pieces[p] == l.db.pieces[p]
  {
    RunExtends(l, events);
  }

  // --- Exactly once ---

  lemma SuccessIsStored(l: Ledger, req: Request, stamp: Stamp)
    requires LedgerHolds(l) && AcceptedIntent(req.intent) && req.commandId !in l.db.commands
    requires Execute(l.db, req, stamp).1.Success?
    ensures
      var after := Commit(l, req, stamp);
      && |after.log| == |l.log| + 1 && req.commandId in after.db.commands
      && after.db.commands[req.commandId] == after.log[|l.log|]
      && SameBinding(after.db.commands[req.commandId], req)
      && MapResult(after.db.commands[req.commandId], true)
        == Success(Execute(l.db, req, stamp).1.data.(replayed := true))
  {
    var actor := Admit(l.db.users, req.actorId).actor;
    var w := Perform(l.db, actor, req.intent, stamp);
    var r := RecordOf(req, actor, w.before, w.after, stamp.now);
    FreshRecordMaps(l.db, req, actor, stamp);
    ExecuteStores(l.db, req, actor, stamp, w, r);
    assert actor.id == req.actorId;
    MapsAlike(r);
  }

  lemma MapsAlike(r: Record)
    requires MapResult(r, false).Success?
    ensures MapResult(r, true) == Success(MapResult(r, false).data.(replayed := true))
  {
  }

  /** A call whose command is already retained changes nothing, whatever it asks for. */
  lemma RetainedCommandChangesNothing(db: Db, req: Request, stamp: Stamp)
    requires req.commandId in db.commands
    ensures Execute(db, req, stamp).0 == db
    ensures Admit(db.users, req.actorId).Admitted? && !SameBinding(db.commands[req.commandId], req) ==>
      Execute(db, req, stamp).1 == Failure(CommandConflict)
  {
  }

  /**
   Exactly once: when a call has succeeded, then after any further run the same call leaves the tables
   alone, and whenever it succeeds again it returns the same receipt and the same saved image.
   It succeeds exactly when the actor is still admitted and may still see the resource.
   */
  lemma ReplayReturnsTheSameReceipt(l: Ledger, req: Request, first: Stamp, events: seq<Event>, again: Stamp)
    requires LedgerHolds(l) && AcceptedIntent(req.intent) && req.commandId !in l.db.commands
    requires Execute(l.db, req, first).1.Success?
    ensures
      var data := Execute(l.db, req, first).1.data;
      var later := Run(Commit(l, req, first), events).db;
      var outcome := Execute(later, req, again).1;
      && Execute(later, req, again).0 == later
      && (outcome.Success? ==> outcome.data == data.(replayed := true))
      && (outcome.Success? <==>
        Admit(later.users, req.actorId).Admitted? && req.commandId in later.commands
        && Visible(later, Admit(later.users, req.actorId).actor, later.commands[req.commandId]))
  {
    SuccessIsStored(l, req, first);
    RunExtends(Commit(l, req, first), events);
  }

  /** The resource of the record exists, and an employee owns the draft. */
  predicate Own(db: Db, actor: Account, r: Record) {
    match r.draftId
    case Some(d) => d in db.drafts && (actor.role == USER ==> db.drafts[d].ownerId == actor.id)
    case None => match r.customerId case Some(c) => c in db.customers case None => false
  }

  predicate OwnImage(customers: map<Id, Customer>, drafts: map<Id, DraftRow>, actor: Account, image: Image) {
    match image
    case CustomerImage(c) => c.id in customers
    case DraftImage(d) => d.id in drafts && (actor.role == USER ==> drafts[d.id].ownerId == actor.id)
  }

  lemma CustomerWorkIsOwn(db: Db, actor: Account, intent: Intent, stamp: Stamp)
    requires TablesHold(db) && ForCustomer(OperationOf(intent)) && Perform(db, actor, intent, stamp).Done?
    ensures
      var w := Perform(db, actor, intent, stamp);
      OwnImage(w.customers, w.drafts, actor, w.after)
  {
  }

  lemma FinishedWorkIsOwn(db: Db, actor: Account, id: Id, row: DraftRow, c: DraftCapture, before: Option<Image>, stamp: Stamp)
    requires FinishDraft(db, id, row, c, before, stamp).Done? && (actor.role == USER ==> row.ownerId == actor.id)
    ensures
      var w := FinishDraft(db, id, row, c, before, stamp);
      OwnImage(w.customers, w.drafts, actor, w.after)
  {
  }

  lemma WorkIsOwn(db: Db, actor: Account, intent: Intent, stamp: Stamp)
    requires TablesHold(db) && Perform(db, actor, intent, stamp).Done?
    ensures
      var w := Perform(db, actor, intent, stamp);
      OwnImage(w.customers, w.drafts, actor, w.after)
  {
    match intent
    case CreateDraft(c) =>
      CreateDraftUnfolds(db, actor, c, stamp);
      FinishedWorkIsOwn(db, actor, stamp.freshId, CreatedRow(actor, c, stamp.now), c, None, stamp);
    case SaveDraft(id, v, c) =>
      SaveDraftUnfolds(db, actor, id, v, c, stamp);
      FinishedWorkIsOwn(db, actor, id, SavedRow(db.drafts[id], c, stamp.now), c,
        Some(DraftImage(MapDraft(db.customers, db.pieces, id, db.drafts[id], stamp.ownerBefore).value)), stamp);
    case _ => CustomerWorkIsOwn(db, actor, intent, stamp);
  }

  lemma SuccessIsOwn(l: Ledger, req: Request, stamp: Stamp)
    requires LedgerHolds(l) && AcceptedIntent(req.intent) && req.commandId !in l.db.commands
    requires Execute(l.db, req, stamp).1.Success?
    ensures req.actorId in l.db.users && l.db.users[req.actorId].id == req.actorId
    ensures
      var after := Commit(l, req, stamp).db;
      req.commandId in after.commands && Own(after, l.db.users[req.actorId], after.commands[req.commandId])
  {
    var actor := Admit(l.db.users, req.actorId).actor;
    var w := Perform(l.db, actor, req.intent, stamp);
    var r := RecordOf(req, actor, w.before, w.after, stamp.now);
    FreshRecordMaps(l.db, req, actor, stamp);
    ExecuteStores(l.db, req, actor, stamp, w, r);
    WorkIsOwn(l.db, actor, req.intent, stamp);
    ImageKind(l.db, actor, req.intent, stamp);
    OwnRecord(TablesAfter(l.db, w), actor, req, w, stamp.now);
  }

  lemma OwnRecord(db: Db, actor: Account, req: Request, w: Work, now: Instant)
    requires w.Done? && OwnImage(db.customers, db.drafts, actor, w.after)
    requires ForCustomer(OperationOf(req.intent)) <==> w.after.CustomerImage?
    ensures Own(db, actor, RecordOf(req, actor, w.before, w.after, now))
  {
  }

  lemma OwnStaysVisible(a: Db, b: Db, first: Account, now: Account, r: Record)
    requires Extends(a, b) && Own(a, first, r) && first.id == now.id && (first.role == USER || now.role == ADMIN)
    ensures Visible(b, now, r)
  {
  }

  lemma ReceiptComesBack(after: Db, later: Db, req: Request, first: Account, r: Record, data: CommandData, again: Stamp)
    requires Extends(after, later) && req.commandId in after.commands && after.commands[req.commandId] == r
    requires SameBinding(r, req) && MapResult(r, true) == Success(data) && Own(after, first, r)
    requires Admit(later.users, req.actorId).Admitted? && later.users[req.actorId].id == first.id
    requires first.role == USER || later.users[req.actorId].role == ADMIN
    ensures Execute(later, req, again) == (later, Success(data))
  {
    OwnStaysVisible(after, later, first, later.users[req.actorId], r);
  }

  lemma UsersKeepTheirIds(l: Ledger, events: seq<Event>, u: Id)
    requires LedgerHolds(l) && AllAdmissible(events) && u in Run(l, events).db.users
    ensures Run(l, events).db.users[u].id == u
  {
    RunHolds(l, events);
  }

  /** An employee who is still admitted always gets the receipt back; so does an administrator who still is one. */
  lemma AdmittedActorGetsTheReceipt(l: Ledger, req: Request, first: Stamp, events: seq<Event>, again: Stamp)
    requires LedgerHolds(l) && AcceptedIntent(req.intent) && req.commandId !in l.db.commands
    requires Execute(l.db, req, first).1.Success? && AllAdmissible(events)
    requires
      var later := Run(Commit(l, req, first), events).db;
      Admit(later.users, req.actorId).Admitted? &&
      (l.db.users[req.actorId].role == USER || later.users[req.actorId].role == ADMIN)
    ensures
      var later := Run(Commit(l, req, first), events).db;
      Execute(later, req, again) == (later, Success(Execute(l.db, req, first).1.data.(replayed := true)))
  {
    var after, data := Commit(l, req, first), Execute(l.db, req, first).1.data;
    SuccessIsStored(l, req, first);
    SuccessIsOwn(l, req, first);
    CommitHolds(l, req, first);
    RunExtends(after, events);
    UsersKeepTheirIds(after, events, req.actorId);
    ReceiptComesBack(after.db, Run(after, events).db, req, l.db.users[req.actorId], after.db.commands[req.commandId],
      data.(replayed := true), again);
  }

  /** Observation agrees with replay for the actor of the command, and shows nothing to anybody else. */
  lemma ObservationAgreesWithReplay(db: Db, req: Request, stamp: Stamp)
    requires TablesHold(db) && req.commandId in db.commands
    ensures SameBinding(db.commands[req.commandId], req) ==>
      Observe(db, req.actorId, req.commandId) == Execute(db, req, stamp).1
    ensures db.commands[req.commandId].actorId != req.actorId && Admit(db.users, req.actorId).Admitted? ==>
      Observe(db, req.actorId, req.commandId) == Failure(CommandNotFound)
  {
    if Admit(db.users, req.actorId).Admitted? {
      AdmittedIsTheActor(db, req.actorId);
    }
  }

  lemma AdmittedIsTheActor(db: Db, actorId: Id)
    requires TablesHold(db) && Admit(db.users, actorId).Admitted?
    ensures Admit(db.users, actorId).actor.id == actorId
  {
  }

  // --- Save then read back ---

  function CaptureOf(i: Intent): DraftCapture
    requires i.CreateDraft? || i.SaveDraft?
  {
    i.draft
  }

  predicate ShowsAll(i: Image, c: DraftCapture) {
    i.DraftImage? && Shows(i.draft, c) && CustomerIdOf(i.draft) == c.customerId
  }

  lemma FinishedShowsAll(db: Db, id: Id, row: DraftRow, c: DraftCapture, before: Option<Image>, stamp: Stamp)
    requires CustomersHold(db.customers) && CustomersExist(db.customers, Linked(c.customerId))
    requires Accepted(c) && PlanPieces(db.pieces, id, c.pieces) == Planned && StoreHeader(c) == Some(row.header)
    ensures FinishDraft(db, id, row, c, before, stamp).Done? && ShowsAll(FinishDraft(db, id, row, c, before, stamp).after, c)
  {
    FinishedDraftShowsCapture(db, id, row, c, before, stamp);
    if c.customerId.Some? { assert c.customerId.value in Linked(c.customerId); }
  }

  lemma PerformShowsCapture(db: Db, actor: Account, intent: Intent, stamp: Stamp)
    requires CustomersHold(db.customers) && !ForCustomer(OperationOf(intent)) && AcceptedIntent(intent)
    requires Perform(db, actor, intent, stamp).Done?
    ensures ShowsAll(Perform(db, actor, intent, stamp).after, CaptureOf(intent))
  {
    match intent
    case CreateDraft(c) =>
      CreateDraftUnfolds(db, actor, c, stamp);
      FinishedShowsAll(db, stamp.freshId, CreatedRow(actor, c, stamp.now), c, None, stamp);
    case SaveDraft(id, v, c) =>
      SaveDraftUnfolds(db, actor, id, v, c, stamp);
      FinishedShowsAll(db, id, SavedRow(db.drafts[id], c, stamp.now), c,
        Some(DraftImage(MapDraft(db.customers, db.pieces, id, db.drafts[id], stamp.ownerBefore).value)), stamp);
  }

  /** What the image says beside the capture: owner, times and the linked customer. */
  predicate DraftTells(before: Db, actorId: Id, i: Intent, stamp: Stamp, d: DraftDto)
    requires i.CreateDraft? || i.SaveDraft?
  {
    && d.updatedAt == stamp.now && d.ownerName == stamp.ownerAfter
    && d.customer == LinkedCustomer(before.customers, CaptureOf(i).customerId)
    && match i
      case CreateDraft(_) => d.id == stamp.freshId && d.ownerId == actorId && d.createdAt == stamp.now
      case SaveDraft(id, _, _) =>
        id in before.drafts && d.id == id && d.ownerId == before.drafts[id].ownerId && d.createdAt == before.drafts[id].createdAt
  }

  lemma FinishTells(db: Db, id: Id, row: DraftRow, c: DraftCapture, before: Option<Image>, stamp: Stamp)
    requires FinishDraft(db, id, row, c, before, stamp).Done? && row.header.customerId == c.customerId
    ensures
      var w := FinishDraft(db, id, row, c, before, stamp);
      w.after.DraftImage? && w.after.draft.id == id && w.after.draft.ownerId == row.ownerId
      && w.after.draft.createdAt == row.createdAt && w.after.draft.updatedAt == row.updatedAt
      && w.after.draft.ownerName == stamp.ownerAfter && w.after.draft.customer == LinkedCustomer(db.customers, c.customerId)
  {
  }

  lemma PerformTells(db: Db, actor: Account, intent: Intent, stamp: Stamp)
    requires !ForCustomer(OperationOf(intent)) && Perform(db, actor, intent, stamp).Done?
    ensures
      var w := Perform(db, actor, intent, stamp);
      w.after.DraftImage? && DraftTells(db, actor.id, intent, stamp, w.after.draft)
  {
    match intent
    case CreateDraft(c) =>
      CreateDraftUnfolds(db, actor, c, stamp);
      StoredCustomer(c, CreatedRow(actor, c, stamp.now));
      FinishTells(db, stamp.freshId, CreatedRow(actor, c, stamp.now), c, None, stamp);
    case SaveDraft(id, v, c) =>
      SaveDraftUnfolds(db, actor, id, v, c, stamp);
      StoredCustomer(c, SavedRow(db.drafts[id], c, stamp.now));
      FinishTells(db, id, SavedRow(db.drafts[id], c, stamp.now), c,
        Some(DraftImage(MapDraft(db.customers, db.pieces, id, db.drafts[id], stamp.ownerBefore).value)), stamp);
  }

  /**
   Save then read back: a draft call that succeeds answers with the captured header, the captured customer
   and the captured pieces in order, through date and amount storage; and the stored row shows the same.
   The owner and the creation time of a draft never change.
   */
  lemma SavedDraftReadsBack(l: Ledger, req: Request, stamp: Stamp)
    requires LedgerHolds(l) && AcceptedIntent(req.intent) && req.commandId !in l.db.commands
    requires !ForCustomer(OperationOf(req.intent)) && Execute(l.db, req, stamp).1.Success?
    ensures
      var saved := Execute(l.db, req, stamp).1.data.saved;
      && ShowsAll(saved, CaptureOf(req.intent)) && DraftTells(l.db, req.actorId, req.intent, stamp, saved.draft)
      && Current(Execute(l.db, req, stamp).0, DraftOf(ImageId(saved)), saved)
  {
    var actor := Admit(l.db.users, req.actorId).actor;
    var w := Perform(l.db, actor, req.intent, stamp);
    FreshRecordMaps(l.db, req, actor, stamp);
    ExecuteStores(l.db, req, actor, stamp, w, RecordOf(req, actor, w.before, w.after, stamp.now));
    PerformShowsCapture(l.db, actor, req.intent, stamp);
    PerformTells(l.db, actor, req.intent, stamp);
    PerformEffect(l.db, actor, req.intent, stamp);
    AdmittedIsTheActor(l.db, req.actorId);
    CommandsDoNotMatterForRows(TablesAfter(l.db, w), Execute(l.db, req, stamp).0, w.after);
  }

  lemma CommandsDoNotMatterForRows(a: Db, b: Db, image: Image)
    requires b == a.(commands := b.commands) && Current(a, ResourceOf(image), image)
    ensures Current(b, ResourceOf(image), image)
  {
  }

  /** The customer as captured. */
  predicate ShowsCaptured(c: Customer, capture: CustomerCapture, now: Instant) {
    && c.createdAt == c.updatedAt == now && c.name == capture.name && c.phone == capture.phone && c.email == capture.email
    && c.address == capture.address && c.notes == capture.notes
  }

  predicate FieldFollows<T(==)>(p: Patch<T>, before: T, after: T) {
    match p case Keep => after == before case Put(v) => after == v
  }

  /** A patched field has the patched value, every other field is as it was. */
  predicate FollowsPatch(before: Customer, after: Customer, p: CustomerPatch) {
    && after.id == before.id && after.createdAt == before.createdAt
    && FieldFollows(p.name, before.name, after.name) && FieldFollows(p.phone, before.phone, after.phone)
    && FieldFollows(p.email, before.email, after.email) && FieldFollows(p.address, before.address, after.address)
    && FieldFollows(p.notes, before.notes, after.notes)
  }

  predicate CustomerReadsBack(db: Db, i: Intent, saved: Image, now: Instant) {
    saved.CustomerImage? && match i
      case CreateCustomer(c) => ShowsCaptured(saved.customer, c, now)
      case UpdateCustomer(id, _, p) =>
        id in db.customers && FollowsPatch(db.customers[id], saved.customer, p) && saved.customer.updatedAt == now
      case _ => false
  }

  lemma CustomerWorkReadsBack(db: Db, actor: Account, intent: Intent, stamp: Stamp)
    requires CustomersHold(db.customers) && ForCustomer(OperationOf(intent)) && Perform(db, actor, intent, stamp).Done?
    ensures CustomerReadsBack(db, intent, Perform(db, actor, intent, stamp).after, stamp.now)
  {
  }

  /** A customer call that succeeds answers with the captured customer, or with the patched one and nothing else changed. */
  lemma SavedCustomerReadsBack(l: Ledger, req: Request, stamp: Stamp)
    requires LedgerHolds(l) && AcceptedIntent(req.intent) && req.commandId !in l.db.commands
    requires ForCustomer(OperationOf(req.intent)) && Execute(l.db, req, stamp).1.Success?
    ensures CustomerReadsBack(l.db, req.intent, Execute(l.db, req, stamp).1.data.saved, stamp.now)
  {
    var actor := Admit(l.db.users, req.actorId).actor;
    var w := Perform(l.db, actor, req.intent, stamp);
    FreshRecordMaps(l.db, req, actor, stamp);
    ExecuteStores(l.db, req, actor, stamp, w, RecordOf(req, actor, w.before, w.after, stamp.now));
    CustomerWorkReadsBack(l.db, actor, req.intent, stamp);
  }

  /** A receipt names its request, its actor as it was, its resource, and the revisions of that resource before and after. */
  predicate ReceiptTells(before: Db, after: Db, req: Request, data: CommandData) {
    var x, r := ResourceOf(data.saved), data.receipt;
    && r.commandId == req.commandId && r.actorId == req.actorId && r.operation == OperationOf(req.intent)
    && r.resourceId == x.id && !data.replayed && req.actorId in before.users
    && r.actorFullName == before.users[req.actorId].fullName && r.actorRole == before.users[req.actorId].role
    && r.actorDepartment == before.users[req.actorId].department
    && r.afterVersion == VersionOf(after, x) == VersionOf(before, x) + 1
    && r.beforeVersion == (if Exists(before, x) then Some(VersionOf(before, x)) else None)
  }

  lemma EffectTells(db: Db, after: Db, req: Request, actor: Account, w: Work, now: Instant)
    requires TablesHold(db) && Effect(db, w) && req.actorId in db.users && db.users[req.actorId] == actor
    requires after == TablesAfter(db, w).(commands := after.commands)
    requires MapResult(RecordOf(req, actor, w.before, w.after, now), false).Success?
    requires MapResult(RecordOf(req, actor, w.before, w.after, now), false).data.saved == w.after
    ensures ReceiptTells(db, after, req, MapResult(RecordOf(req, actor, w.before, w.after, now), false).data)
  {
    var x := ResourceOf(w.after);
    if w.before != None { CurrentVersion(db, x, w.before.value); }
  }

  lemma ReceiptTellsTheRevision(l: Ledger, req: Request, stamp: Stamp)
    requires LedgerHolds(l) && AcceptedIntent(req.intent) && req.commandId !in l.db.commands
    requires Execute(l.db, req, stamp).1.Success?
    ensures ReceiptTells(l.db, Execute(l.db, req, stamp).0, req, Execute(l.db, req, stamp).1.data)
  {
    var actor := Admit(l.db.users, req.actorId).actor;
    var w := Perform(l.db, actor, req.intent, stamp);
    FreshRecordMaps(l.db, req, actor, stamp);
    ExecuteStores(l.db, req, actor, stamp, w, RecordOf(req, actor, w.before, w.after, stamp.now));
    PerformEffect(l.db, actor, req.intent, stamp);
    AdmittedIsTheActor(l.db, req.actorId);
    EffectTells(l.db, Execute(l.db, req, stamp).0, req, actor, w, stamp.now);
  }

  // --- Phones ---

  predicate PhonesUnique(customers: map<Id, Customer>) {
    forall a, b | a in customers && b in customers && a != b :: customers[a].phone != customers[b].phone
  }

  lemma CustomerWorkKeepsPhones(db: Db, actor: Account, intent: Intent, stamp: Stamp)
    requires PhonesUnique(db.customers) && ForCustomer(OperationOf(intent)) && Perform(db, actor, intent, stamp).Done?
    ensures PhonesUnique(Perform(db, actor, intent, stamp).customers)
  {
  }

  lemma DraftWorkKeepsCustomers(db: Db, actor: Account, intent: Intent, stamp: Stamp)
    requires !ForCustomer(OperationOf(intent)) && Perform(db, actor, intent, stamp).Done?
    ensures Perform(db, actor, intent, stamp).customers == db.customers
  {
    match intent
    case CreateDraft(c) => CreateDraftUnfolds(db, actor, c, stamp);
    case SaveDraft(id, v, c) => SaveDraftUnfolds(db, actor, id, v, c, stamp);
  }

  lemma CommitKeepsPhones(l: Ledger, req: Request, stamp: Stamp)
    requires PhonesUnique(l.db.customers)
    ensures PhonesUnique(Commit(l, req, stamp).db.customers)
  {
    var admission := Admit(l.db.users, req.actorId);
    if admission.Admitted? && req.commandId !in l.db.commands && Perform(l.db, admission.actor, req.intent, stamp).Done? {
      if ForCustomer(OperationOf(req.intent)) {
        CustomerWorkKeepsPhones(l.db, admission.actor, req.intent, stamp);
      } else {
        DraftWorkKeepsCustomers(l.db, admission.actor, req.intent, stamp);
      }
    }
  }

  /** Over every run no two customers ever share a phone. */
  lemma {:induction false} RunKeepsPhones(l: Ledger, events: seq<Event>)
    requires PhonesUnique(l.db.customers)
    ensures PhonesUnique(Run(l, events).db.customers)
  {
    if events != [] {
      var front, last := events[..|events| - 1], events[|events| - 1];
      RunKeepsPhones(l, front);
      if last.Call? { CommitKeepsPhones(Run(l, front), last.req, last.stamp); }
    }
  }

  // --- No internal errors ---

  predicate CallersFault(e: SalesError) {
    !e.InternalError? && !e.InvalidHeader? && !e.InvalidPieces?
  }

  lemma RowsAreShown(l: Ledger, d: Id, name: string)
    requires LedgerHolds(l) && d in l.db.drafts
    ensures MapDraft(l.db.customers, l.db.pieces, d, l.db.drafts[d], name).Some?
  {
    var trail := Trail(l.log, DraftOf(d));
    DraftTrailEndsAtRow(l, d);
    RowsHaveVersions(l.db.drafts, l.db.pieces, d);
    CurrentRowIsShown(l.db, d, trail[|trail| - 1].after, name);
  }

  lemma DraftTrailEndsAtRow(l: Ledger, d: Id)
    requires LedgerHolds(l)
    ensures EndsAtRow(l.db, Trail(l.log, DraftOf(d)), DraftOf(d))
  {
    assert TrailHolds(l.db, Trail(l.log, DraftOf(d)), DraftOf(d));
  }

  lemma RowsHaveVersions(drafts: map<Id, DraftRow>, pieces: PieceTable, d: Id)
    requires DraftsHold(drafts, pieces) && d in drafts
    ensures drafts[d].version >= 1
  {
  }

  lemma CurrentRowIsShown(db: Db, d: Id, image: Image, name: string)
    requires Current(db, DraftOf(d), image)
    ensures MapDraft(db.customers, db.pieces, d, db.drafts[d], name).Some?
  {
  }

  lemma PlanningHasNoInvalidPieces(t: PieceTable, d: Id, c: DraftCapture)
    requires Accepted(c)
    ensures PlanPieces(t, d, c.pieces) != PlanRefused(InvalidPieces)
    ensures PlanPieces(t, d, c.pieces).PlanRefused? ==> CallersFault(PlanPieces(t, d, c.pieces).error)
  {
  }

  lemma FinishSucceeds(db: Db, id: Id, row: DraftRow, c: DraftCapture, before: Option<Image>, stamp: Stamp)
    requires Accepted(c) && PlanPieces(db.pieces, id, c.pieces) == Planned && StoreHeader(c) == Some(row.header)
    ensures FinishDraft(db, id, row, c, before, stamp).Done?
  {
    FinishedDraftShowsCapture(db, id, row, c, before, stamp);
  }

  lemma HeadersAreStored(c: DraftCapture)
    requires Accepted(c)
    ensures StoreHeader(c).Some?
  {
    HeaderReadsBack(c);
  }

  lemma CreateDraftFaults(db: Db, actor: Account, c: DraftCapture, stamp: Stamp)
    requires Accepted(c) && stamp.freshId !in db.drafts && PerformCreateDraft(db, actor, c, stamp).Refused?
    ensures CallersFault(PerformCreateDraft(db, actor, c, stamp).error)
  {
    PlanningHasNoInvalidPieces(db.pieces, stamp.freshId, c);
    HeadersAreStored(c);
    if PlanPieces(db.pieces, stamp.freshId, c.pieces) == Planned {
      FinishSucceeds(db, stamp.freshId, CreatedRow(actor, c, stamp.now), c, None, stamp);
    }
  }

  lemma PlannedSaveIsDone(db: Db, actor: Account, id: Id, v: nat, c: DraftCapture, before: DraftDto, stamp: Stamp)
    requires id in db.drafts && MayOpen(actor, db.drafts[id]) && db.drafts[id].version == v && v != MAX_VERSION
    requires CustomersExist(db.customers, Linked(db.drafts[id].header.customerId) + Linked(c.customerId))
    requires MapDraft(db.customers, db.pieces, id, db.drafts[id], stamp.ownerBefore) == Some(before)
    requires PlanPieces(db.pieces, id, c.pieces) == Planned && StoreHeader(c).Some?
    ensures PerformSaveDraft(db, actor, id, v, c, stamp)
      == FinishDraft(db, id, SavedRow(db.drafts[id], c, stamp.now), c, Some(DraftImage(before)), stamp)
  {
  }

  lemma UnplannedSaveIsRefused(db: Db, actor: Account, id: Id, v: nat, c: DraftCapture, stamp: Stamp)
    requires id in db.drafts && MapDraft(db.customers, db.pieces, id, db.drafts[id], stamp.ownerBefore).Some?
    requires PlanPieces(db.pieces, id, c.pieces).PlanRefused? && CallersFault(PlanPieces(db.pieces, id, c.pieces).error)
    ensures PerformSaveDraft(db, actor, id, v, c, stamp).Refused?
    ensures CallersFault(PerformSaveDraft(db, actor, id, v, c, stamp).error)
  {
  }

  predicate PassesChecks(db: Db, actor: Account, id: Id, v: nat, c: DraftCapture) {
    && id in db.drafts && MayOpen(actor, db.drafts[id]) && db.drafts[id].version == v && v != MAX_VERSION
    && CustomersExist(db.customers, Linked(db.drafts[id].header.customerId) + Linked(c.customerId))
  }

  lemma UncheckedSaveIsRefused(db: Db, actor: Account, id: Id, v: nat, c: DraftCapture, stamp: Stamp)
    requires !PassesChecks(db, actor, id, v, c)
    ensures PerformSaveDraft(db, actor, id, v, c, stamp).Refused?
    ensures CallersFault(PerformSaveDraft(db, actor, id, v, c, stamp).error)
  {
  }

  lemma SaveDraftFaults(l: Ledger, actor: Account, id: Id, v: nat, c: DraftCapture, stamp: Stamp)
    requires LedgerHolds(l) && Accepted(c) && PerformSaveDraft(l.db, actor, id, v, c, stamp).Refused?
    ensures CallersFault(PerformSaveDraft(l.db, actor, id, v, c, stamp).error)
  {
    if !PassesChecks(l.db, actor, id, v, c) {
      UncheckedSaveIsRefused(l.db, actor, id, v, c, stamp);
    } else {
      RowsAreShown(l, id, stamp.ownerBefore);
      PlanningHasNoInvalidPieces(l.db.pieces, id, c);
      if PlanPieces(l.db.pieces, id, c.pieces) != Planned {
        UnplannedSaveIsRefused(l.db, actor, id, v, c, stamp);
      } else {
        HeadersAreStored(c);
        var before := MapDraft(l.db.customers, l.db.pieces, id, l.db.drafts[id], stamp.ownerBefore).value;
        PlannedSaveIsDone(l.db, actor, id, v, c, before, stamp);
        FinishSucceeds(l.db, id, SavedRow(l.db.drafts[id], c, stamp.now), c, Some(DraftImage(before)), stamp);
      }
    }
  }

  lemma WorkFaults(l: Ledger, actor: Account, intent: Intent, stamp: Stamp)
    requires LedgerHolds(l) && AcceptedIntent(intent)
    requires stamp.freshId !in l.db.customers && stamp.freshId !in l.db.drafts
    requires Perform(l.db, actor, intent, stamp).Refused?
    ensures CallersFault(Perform(l.db, actor, intent, stamp).error)
  {
    match intent
    case CreateDraft(c) => CreateDraftFaults(l.db, actor, c, stamp);
    case SaveDraft(id, v, c) => SaveDraftFaults(l, actor, id, v, c, stamp);
    case _ =>
  }

  lemma RetainedRecordAnswers(l: Ledger, id: Id)
    requires LedgerHolds(l) && id in l.db.commands
    ensures MapResult(l.db.commands[id], true).Success?
  {
    assert MapsCleanly(l.db.commands[id]);
  }

  /** In every reachable state no accepted call and no observation ends in an internal error. */
  lemma NoInternalErrors(l: Ledger, req: Request, stamp: Stamp)
    requires LedgerHolds(l) && AcceptedIntent(req.intent)
    requires stamp.freshId !in l.db.customers && stamp.freshId !in l.db.drafts
    ensures Execute(l.db, req, stamp).1.Failure? ==> CallersFault(Execute(l.db, req, stamp).1.error)
    ensures Observe(l.db, req.actorId, req.commandId).Failure? ==>
      CallersFault(Observe(l.db, req.actorId, req.commandId).error)
  {
    if req.commandId in l.db.commands {
      RetainedRecordAnswers(l, req.commandId);
    } else if Admit(l.db.users, req.actorId).Admitted? {
      var actor := Admit(l.db.users, req.actorId).actor;
      if Perform(l.db, actor, req.intent, stamp).Refused? {
        WorkFaults(l, actor, req.intent, stamp);
      } else {
        FreshRecordMaps(l.db, req, actor, stamp);
      }
    }
  }

  // --- The receipt log is the history ---

  lemma {:induction false} TrailMembers(log: seq<Record>, x: Resource, r: Record)
    ensures r in Trail(log, x) <==> r in log && ResourceOf(r.after) == x
  {
    if log != [] {
      TrailMembers(log[..|log| - 1], x, r);
      assert log == log[..|log| - 1] + [log[|log| - 1]];
    }
  }

  lemma TrailReachesVersion(l: Ledger, x: Resource)
    requires LedgerHolds(l)
    ensures Chained(Trail(l.log, x)) && |Trail(l.log, x)| == VersionOf(l.db, x)
  {
    assert TrailHolds(l.db, Trail(l.log, x), x);
  }

  /** A retained record is the one that made the revision it names. */
  lemma RecordMadeItsRevision(l: Ledger, r: Record)
    requires LedgerHolds(l) && r in l.log
    ensures
      var trail := Trail(l.log, ResourceOf(r.after));
      1 <= r.afterVersion <= VersionOf(l.db, ResourceOf(r.after)) == |trail| && trail[r.afterVersion - 1] == r
  {
    var trail := Trail(l.log, ResourceOf(r.after));
    TrailReachesVersion(l, ResourceOf(r.after));
    TrailMembers(l.log, ResourceOf(r.after), r);
    var i :| 0 <= i < |trail| && trail[i] == r;
    assert LinkAt(trail, i);
  }

  /** Every revision of every customer and draft has a retained record. */
  lemma EveryRevisionHasARecord(l: Ledger, x: Resource, v: nat) returns (r: Record)
    requires LedgerHolds(l) && 1 <= v <= VersionOf(l.db, x)
    ensures r in l.log && ResourceOf(r.after) == x && r.afterVersion == v
  {
    var trail := Trail(l.log, x);
    TrailReachesVersion(l, x);
    r := trail[v - 1];
    assert LinkAt(trail, v - 1);
    TrailMembers(l.log, x, r);
  }

  /** And no revision has two. */
  lemma NoRevisionHasTwoRecords(l: Ledger, r: Record, q: Record)
    requires LedgerHolds(l) && r in l.log && q in l.log
    requires ResourceOf(r.after) == ResourceOf(q.after) && r.afterVersion == q.afterVersion
    ensures r == q
  {
    var trail := Trail(l.log, ResourceOf(r.after));
    assert trail[r.afterVersion - 1] == r by { RecordMadeItsRevision(l, r); }
    assert trail[r.afterVersion - 1] == q by { RecordMadeItsRevision(l, q); }
  }
}

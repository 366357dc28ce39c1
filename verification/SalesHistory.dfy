/**
 The history of the sales tables over every run of commands: the retained receipts are
 the exact history of each customer and draft, and every piece keeps its identity for life.
 */
module SalesHistory {
  import opened Foundations
  import opened Accounts
  import opened DraftPieces
  import opened PieceRewrite
  import opened SalesModel
  import opened SalesReadBack

  /** The tables, and the retained records in the order in which they were committed. */
  datatype Ledger = Ledger(db: Db, log: seq<Record>)

  datatype Event =
    | Call(req: Request, stamp: Stamp)
    | WriteAccount(account: Account)
    | DropAccount(id: Id)

  predicate Admissible(e: Event) {
    e.Call? ==> AcceptedIntent(e.req.intent)
  }

  function Commit(l: Ledger, req: Request, stamp: Stamp): Ledger {
    var (db, outcome) := Execute(l.db, req, stamp);
    if req.commandId in db.commands && req.commandId !in l.db.commands
    then Ledger(db, l.log + [db.commands[req.commandId]])
    else Ledger(db, l.log)
  }

  function Next(l: Ledger, e: Event): Ledger {
    match e
    case Call(req, stamp) => Commit(l, req, stamp)
    case WriteAccount(a) => l.(db := l.db.(users := l.db.users[a.id := a]))
    case DropAccount(id) => l.(db := l.db.(users := l.db.users - {id}))
  }

  function Run(l: Ledger, events: seq<Event>): Ledger {
    if events == [] then l else Next(Run(l, events[..|events| - 1]), events[|events| - 1])
  }

  // --- Resources and their trails ---

  datatype Resource = CustomerOf(id: Id) | DraftOf(id: Id)

  function ResourceOf(i: Image): Resource {
    match i case CustomerImage(c) => CustomerOf(c.id) case DraftImage(d) => DraftOf(d.id)
  }

  /** The records of one resource, oldest first. */
  function Trail(log: seq<Record>, x: Resource): seq<Record> {
    if log == [] then []
    else
      var last := log[|log| - 1];
      Trail(log[..|log| - 1], x) + if ResourceOf(last.after) == x then [last] else []
  }

  function Core(d: DraftDto): DraftDto {
    d.(ownerName := "", customer := None)
  }

  function CustomerIdOf(d: DraftDto): Option<Id> {
    match d.customer case None => None case Some(c) => Some(c.id)
  }

  /** Two images of one revision: equal for customers; for drafts the customer summary and the owner name may differ. */
  predicate SameRevision(a: Image, b: Image) {
    match (a, b)
    case (CustomerImage(c), CustomerImage(d)) => c == d
    case (DraftImage(c), DraftImage(d)) => Core(c) == Core(d) && CustomerIdOf(c) == CustomerIdOf(d)
    case _ => false
  }

  /** Versions 1, 2, 3, ... each once, and each before-image is the revision the previous record left. */
  predicate Chained(trail: seq<Record>) {
    forall i | 0 <= i < |trail| :: LinkAt(trail, i)
  }

  predicate LinkAt(trail: seq<Record>, i: nat)
    requires i < |trail|
  {
    Follows(trail[i], LastImage(trail[..i]), i)
  }

  function LastImage(trail: seq<Record>): Option<Image> {
    if trail == [] then None else Some(trail[|trail| - 1].after)
  }

  /** Record number i takes its resource from revision i, left by the previous record, to revision i + 1. */
  predicate Follows(r: Record, previous: Option<Image>, i: nat) {
    && r.afterVersion == i + 1 && ImageVersion(r.after) == i + 1
    && match previous
      case None => r.before == None && r.beforeVersion == None
      case Some(image) => r.beforeVersion == Some(i) && r.before.Some? && SameRevision(r.before.value, image)
  }

  predicate Exists(db: Db, x: Resource) {
    match x case CustomerOf(id) => id in db.customers case DraftOf(id) => id in db.drafts
  }

  function VersionOf(db: Db, x: Resource): nat {
    match x
    case CustomerOf(id) => if id in db.customers then db.customers[id].version else 0
    case DraftOf(id) => if id in db.drafts then db.drafts[id].version else 0
  }

  /** The image shows the current row of x: exactly, or for drafts up to the customer summary and the owner name. */
  predicate Current(db: Db, x: Resource, image: Image) {
    match (x, image)
    case (CustomerOf(id), CustomerImage(c)) => id in db.customers && c == db.customers[id]
    case (DraftOf(id), DraftImage(d)) =>
      id in db.drafts && Depict(id, db.drafts[id], ActiveImages(db.pieces, id)) == Some(Core(d))
      && CustomerIdOf(d) == db.drafts[id].header.customerId
    case _ => false
  }

  /** The trail reaches the current version, and its last image is the current row. */
  predicate EndsAtRow(db: Db, trail: seq<Record>, x: Resource) {
    |trail| == VersionOf(db, x) && (trail != [] ==> Current(db, x, trail[|trail| - 1].after))
  }

  function PieceIds(i: Image): set<Id> {
    match i case CustomerImage(_) => {} case DraftImage(d) => set p | p in d.pieces :: p.id
  }

  function ShownIds(trail: seq<Record>): (s: seq<set<Id>>)
    ensures |s| == |trail| && forall i | 0 <= i < |s| :: s[i] == PieceIds(trail[i].after)
  {
    seq(|trail|, i requires 0 <= i < |trail| => PieceIds(trail[i].after))
  }

  /** Once a piece that was shown is missing, it is never shown again. */
  ghost predicate NoReturn(shown: seq<set<Id>>) {
    forall i, j, k, p :: 0 <= i < j < k < |shown| && p in shown[i] && p !in shown[j] ==> p !in shown[k]
  }

  predicate AllBelong(pieces: PieceTable, shown: seq<set<Id>>, d: Id) {
    forall i | 0 <= i < |shown| :: Belong(pieces, shown[i], d)
  }

  predicate Belong(pieces: PieceTable, ids: set<Id>, d: Id) {
    forall p | p in ids :: p in pieces && pieces[p].draftId == d
  }

  /** A piece shown on this trail belongs to its draft, and once it has left the draft it never returns. */
  ghost predicate PiecesStay(pieces: PieceTable, trail: seq<Record>, d: Id) {
    AllBelong(pieces, ShownIds(trail), d) && NoReturn(ShownIds(trail))
  }

  ghost predicate TrailHolds(db: Db, trail: seq<Record>, x: Resource) {
    Chained(trail) && EndsAtRow(db, trail, x) && (x.DraftOf? ==> PiecesStay(db.pieces, trail, x.id))
  }

  // --- The tables and the log ---

  predicate DraftNumbered(pieces: PieceTable, d: Id) {
    var ids := InOrder(pieces, ActiveIds(pieces, d));
    Numbered(pieces, d, ids) && 1 <= |ids| <= MAX_DRAFT_PIECES
  }

  predicate CustomersHold(customers: map<Id, Customer>) {
    forall c | c in customers :: customers[c].id == c && InRange(customers[c].version)
  }

  predicate DraftsHold(drafts: map<Id, DraftRow>, pieces: PieceTable) {
    forall d | d in drafts :: InRange(drafts[d].version) && DraftNumbered(pieces, d)
  }

  predicate LinksHold(customers: map<Id, Customer>, drafts: map<Id, DraftRow>) {
    forall d | d in drafts :: CustomersExist(customers, Linked(drafts[d].header.customerId))
  }

  predicate OwnersHold(drafts: map<Id, DraftRow>, pieces: PieceTable) {
    forall p | p in pieces :: pieces[p].draftId in drafts
  }

  predicate TablesHold(db: Db) {
    && CustomersHold(db.customers)
    && DraftsHold(db.drafts, db.pieces)
    && LinksHold(db.customers, db.drafts)
    && OwnersHold(db.drafts, db.pieces)
    && forall u | u in db.users :: db.users[u].id == u
  }

  /** A record that maps without an internal error, and whose saved image is returned as it was stored. */
  predicate MapsCleanly(r: Record) {
    match MapResult(r, true) case Success(data) => data.saved == r.after case Failure(_) => false
  }

  predicate LogHolds(db: Db, log: seq<Record>) {
    && (forall i, j :: 0 <= i < j < |log| ==> log[i].commandId != log[j].commandId)
    && (forall r | r in log :: r.commandId in db.commands && db.commands[r.commandId] == r && MapsCleanly(r))
    && (forall id | id in db.commands :: db.commands[id].commandId == id && db.commands[id] in log)
  }

  ghost predicate LedgerHolds(l: Ledger) {
    TablesHold(l.db) && LogHolds(l.db, l.log) && forall x: Resource :: TrailHolds(l.db, Trail(l.log, x), x)
  }

  // --- What one command does to the tables ---

  function TablesAfter(db: Db, w: Work): Db
    requires w.Done?
  {
    Db(db.users, w.customers, w.drafts, w.pieces, db.commands)
  }

  predicate SameRow(a: Db, b: Db, y: Resource) {
    match y
    case CustomerOf(id) => (id in a.customers <==> id in b.customers) && (id in a.customers ==> a.customers[id] == b.customers[id])
    case DraftOf(id) =>
      && (id in a.drafts <==> id in b.drafts)
      && (id in a.drafts ==> a.drafts[id] == b.drafts[id] && ActiveImages(a.pieces, id) == ActiveImages(b.pieces, id))
  }

  /** One command touches one resource, moves it one revision on, and reports both images truly. */
  ghost predicate Effect(db: Db, w: Work) {
    w.Done? &&
    var x, after := ResourceOf(w.after), TablesAfter(db, w);
    && TablesHold(after)
    && ImageVersion(w.after) == VersionOf(after, x) == VersionOf(db, x) + 1
    && Current(after, x, w.after)
    && (Exists(db, x) <==> VersionOf(db, x) > 0)
    && (if Exists(db, x) then w.before.Some? && Current(db, x, w.before.value) else w.before == None)
    && (forall y: Resource | y != x :: SameRow(db, after, y))
    && PieceLivesOn(db.pieces, w.pieces)
    && (x.DraftOf? ==> Belong(w.pieces, PieceIds(w.after), x.id) && Supplies(db.pieces, PieceIds(w.after), x.id))
  }

  lemma {:induction false} InOrderFrame(t: PieceTable, u: PieceTable, ids: set<Id>)
    requires ids <= t.Keys && ids <= u.Keys
    requires forall id | id in ids :: t[id].position == u[id].position
    ensures InOrder(t, ids) == InOrder(u, ids)
    decreases |ids|
  {
    if ids != {} {
      SomeIdComesFirst(t, ids);
      var m :| m in ids && ComesFirst(t, ids, m);
      assert ComesFirst(u, ids, m);
      InOrderFrame(t, u, ids - {m});
      InOrderStartsWith(t, ids, m);
      InOrderStartsWith(u, ids, m);
    }
  }

  /** A draft whose active rows are untouched keeps its list, its images and its numbering. */
  lemma UntouchedDraft(t: PieceTable, u: PieceTable, d: Id)
    requires forall id :: Active(t, id, d) <==> Active(u, id, d)
    requires forall id | id in t && Active(t, id, d) && id in u :: u[id] == t[id]
    ensures ActiveIds(u, d) == ActiveIds(t, d) && InOrder(u, ActiveIds(u, d)) == InOrder(t, ActiveIds(t, d))
    ensures ActiveImages(u, d) == ActiveImages(t, d)
    ensures DraftNumbered(t, d) ==> DraftNumbered(u, d)
  {
    forall id ensures id in ActiveIds(u, d) <==> id in ActiveIds(t, d) {}
    InOrderFrame(t, u, ActiveIds(t, d));
    ListedIdsExist(t, d);
    assert forall id | id in InOrder(t, ActiveIds(t, d)) :: u[id] == t[id];
  }

  lemma LinksHoldAfterCustomer(customers: map<Id, Customer>, drafts: map<Id, DraftRow>, id: Id, row: Customer)
    requires LinksHold(customers, drafts)
    ensures LinksHold(customers[id := row], drafts)
  {
    forall d | d in drafts ensures CustomersExist(customers[id := row], Linked(drafts[d].header.customerId)) {
      assert CustomersExist(customers, Linked(drafts[d].header.customerId));
    }
  }

  lemma LinksHoldAfterDraft(customers: map<Id, Customer>, drafts: map<Id, DraftRow>, id: Id, row: DraftRow)
    requires LinksHold(customers, drafts) && CustomersExist(customers, Linked(row.header.customerId))
    ensures LinksHold(customers, drafts[id := row])
  {
  }

  lemma CustomerWritten(db: Db, id: Id, row: Customer, after: Db)
    requires TablesHold(db) && row.id == id && InRange(row.version)
    requires after == db.(customers := db.customers[id := row])
    ensures TablesHold(after)
    ensures forall y: Resource | y != CustomerOf(id) :: SameRow(db, after, y)
  {
    LinksHoldAfterCustomer(db.customers, db.drafts, id, row);
  }

  lemma CreateCustomerEffect(db: Db, c: CustomerCapture, stamp: Stamp)
    requires TablesHold(db) && PerformCreateCustomer(db, c, stamp).Done?
    ensures Effect(db, PerformCreateCustomer(db, c, stamp))
  {
    var w := PerformCreateCustomer(db, c, stamp);
    CustomerWritten(db, stamp.freshId, w.after.customer, TablesAfter(db, w));
  }

  lemma UpdateCustomerEffect(db: Db, id: Id, v: nat, p: CustomerPatch, stamp: Stamp)
    requires TablesHold(db) && PerformUpdateCustomer(db, id, v, p, stamp).Done?
    ensures Effect(db, PerformUpdateCustomer(db, id, v, p, stamp))
  {
    var w := PerformUpdateCustomer(db, id, v, p, stamp);
    CustomerWritten(db, id, w.after.customer, TablesAfter(db, w));
  }

  /** Rewriting the pieces of one draft leaves every other draft's list as it was. */
  lemma OtherDraftsUntouched(t: PieceTable, d: Id, capture: seq<PieceCapture>, now: Instant, e: Id)
    requires e != d && SalesPiecesAdmissible(t, d, capture)
    ensures ActiveImages(Rewritten(t, d, capture, now), e) == ActiveImages(t, e)
    ensures DraftNumbered(t, e) ==> DraftNumbered(Rewritten(t, d, capture, now), e)
  {
    RewriteKeepsIdentity(t, d, capture, now);
    var u := Rewritten(t, d, capture, now);
    forall id ensures Active(t, id, e) <==> Active(u, id, e) {
      if id in u && id !in t { assert Active(u, id, d); }
    }
    UntouchedDraft(t, u, e);
  }

  predicate SalesPiecesAdmissible(t: PieceTable, d: Id, capture: seq<PieceCapture>) {
    Distinct(Ids(capture)) && DraftPieces.Admissible(t, Ids(capture), d)
  }

  lemma RewrittenDraftNumbered(t: PieceTable, d: Id, capture: seq<PieceCapture>, now: Instant)
    requires SalesPiecesAdmissible(t, d, capture) && 1 <= |capture| <= MAX_DRAFT_PIECES
    ensures DraftNumbered(Rewritten(t, d, capture, now), d)
    ensures InOrder(Rewritten(t, d, capture, now), ActiveIds(Rewritten(t, d, capture, now), d)) == Ids(capture)
  {
    RewriteNumbers(t, d, capture, now);
    NumberedInOrder(Rewritten(t, d, capture, now), d, Ids(capture));
  }

  lemma DraftsHoldAfter(drafts: map<Id, DraftRow>, t: PieceTable, id: Id, row: DraftRow, capture: seq<PieceCapture>, now: Instant)
    requires DraftsHold(drafts, t) && InRange(row.version)
    requires SalesPiecesAdmissible(t, id, capture) && 1 <= |capture| <= MAX_DRAFT_PIECES
    ensures DraftsHold(drafts[id := row], Rewritten(t, id, capture, now))
  {
    var u, after := Rewritten(t, id, capture, now), drafts[id := row];
    RewrittenDraftNumbered(t, id, capture, now);
    forall d | d in after ensures InRange(after[d].version) && DraftNumbered(u, d) {
      if d != id {
        assert DraftNumbered(t, d);
        OtherDraftsUntouched(t, id, capture, now, d);
      }
    }
  }

  lemma OwnersHoldAfter(drafts: map<Id, DraftRow>, t: PieceTable, id: Id, row: DraftRow, capture: seq<PieceCapture>, now: Instant)
    requires OwnersHold(drafts, t)
    ensures OwnersHold(drafts[id := row], Rewritten(t, id, capture, now))
  {
    var u := Rewritten(t, id, capture, now);
    RewriteKeepsIdentity(t, id, capture, now);
    forall p | p in u ensures u[p].draftId in drafts[id := row] {
      if p !in t { assert Active(u, p, id); }
    }
  }

  lemma TablesHoldAfterDraft(db: Db, id: Id, row: DraftRow, capture: seq<PieceCapture>, now: Instant, after: Db)
    requires TablesHold(db) && InRange(row.version) && CustomersExist(db.customers, Linked(row.header.customerId))
    requires SalesPiecesAdmissible(db.pieces, id, capture) && 1 <= |capture| <= MAX_DRAFT_PIECES
    requires after == db.(drafts := db.drafts[id := row], pieces := Rewritten(db.pieces, id, capture, now))
    ensures TablesHold(after)
    ensures forall y: Resource | y != DraftOf(id) :: SameRow(db, after, y)
  {
    DraftsHoldAfter(db.drafts, db.pieces, id, row, capture, now);
    OwnersHoldAfter(db.drafts, db.pieces, id, row, capture, now);
    LinksHoldAfterDraft(db.customers, db.drafts, id, row);
    OthersUntouched(db, id, row, capture, now, after);
  }

  lemma OthersUntouched(db: Db, id: Id, row: DraftRow, capture: seq<PieceCapture>, now: Instant, after: Db)
    requires SalesPiecesAdmissible(db.pieces, id, capture)
    requires after == db.(drafts := db.drafts[id := row], pieces := Rewritten(db.pieces, id, capture, now))
    ensures forall y: Resource | y != DraftOf(id) :: SameRow(db, after, y)
  {
    forall y: Resource | y != DraftOf(id) ensures SameRow(db, after, y) {
      if y.DraftOf? { OtherDraftsUntouched(db.pieces, id, capture, now, y.id); }
    }
  }

  lemma ShownPiecesLive(t: PieceTable, id: Id, d: DraftDto, c: DraftCapture, now: Instant)
    requires SalesPiecesAdmissible(t, id, c.pieces) && Shows(d, c)
    ensures Belong(Rewritten(t, id, c.pieces, now), PieceIds(DraftImage(d)), id)
    ensures Supplies(t, PieceIds(DraftImage(d)), id)
  {
    forall p | p in PieceIds(DraftImage(d))
      ensures p in Ids(c.pieces)
    {
      var i :| 0 <= i < |d.pieces| && d.pieces[i].id == p;
      assert Ids(c.pieces)[i] == p;
    }
    RewriteNumbers(t, id, c.pieces, now);
    assert forall p | p in Ids(c.pieces) :: p in ToSet(Ids(c.pieces));
    assert forall p | p in Ids(c.pieces) :: Active(Rewritten(t, id, c.pieces, now), p, id) by {
      forall p | p in Ids(c.pieces) ensures Active(Rewritten(t, id, c.pieces, now), p, id) {
        assert p in ActiveIds(Rewritten(t, id, c.pieces, now), id);
      }
    }
  }

  lemma FinishedDraftEffect(db: Db, id: Id, row: DraftRow, c: DraftCapture, before: Option<Image>, stamp: Stamp)
    requires TablesHold(db) && Accepted(c) && PlanPieces(db.pieces, id, c.pieces) == Planned
    requires StoreHeader(c) == Some(row.header) && InRange(row.version)
    requires CustomersExist(db.customers, Linked(c.customerId))
    requires row.version == VersionOf(db, DraftOf(id)) + 1
    requires if id in db.drafts then before.Some? && Current(db, DraftOf(id), before.value) else before == None
    ensures Effect(db, FinishDraft(db, id, row, c, before, stamp))
  {
    var w := FinishDraft(db, id, row, c, before, stamp);
    FinishedDraftShowsCapture(db, id, row, c, before, stamp);
    PlannedIsAdmissible(db.pieces, id, c.pieces);
    StoredCustomer(c, row);
    TablesHoldAfterDraft(db, id, row, c.pieces, stamp.now, TablesAfter(db, w));
    RewriteKeepsIdentity(db.pieces, id, c.pieces, stamp.now);
    ShownPiecesLive(db.pieces, id, w.after.draft, c, stamp.now);
    FinishedDraftIsCurrent(db, id, row, c, before, stamp);
  }

  lemma PlannedIsAdmissible(t: PieceTable, id: Id, capture: seq<PieceCapture>)
    requires PlanPieces(t, id, capture) == Planned
    ensures SalesPiecesAdmissible(t, id, capture) && 1 <= |capture| <= MAX_DRAFT_PIECES
  {
    ClearMeansAdmissible(t, Ids(capture), id);
  }

  lemma StoredCustomer(c: DraftCapture, row: DraftRow)
    requires StoreHeader(c) == Some(row.header)
    ensures row.header.customerId == c.customerId
  {
  }

  lemma FinishedDraftIsCurrent(db: Db, id: Id, row: DraftRow, c: DraftCapture, before: Option<Image>, stamp: Stamp)
    requires FinishDraft(db, id, row, c, before, stamp).Done?
    requires CustomersHold(db.customers) && CustomersExist(db.customers, Linked(row.header.customerId))
    ensures
      var w := FinishDraft(db, id, row, c, before, stamp);
      Current(TablesAfter(db, w), DraftOf(id), w.after)
  {
    var pieces := Rewritten(db.pieces, id, c.pieces, stamp.now);
    MappedDraftIsCurrent(db.(drafts := db.drafts[id := row], pieces := pieces), id, stamp.ownerAfter);
  }

  /** mapDraft shows the row it was given. */
  lemma MappedDraftIsCurrent(db: Db, id: Id, name: string)
    requires id in db.drafts && CustomersHold(db.customers)
    requires CustomersExist(db.customers, Linked(db.drafts[id].header.customerId))
    requires MapDraft(db.customers, db.pieces, id, db.drafts[id], name).Some?
    ensures Current(db, DraftOf(id), DraftImage(MapDraft(db.customers, db.pieces, id, db.drafts[id], name).value))
  {
    var c := db.drafts[id].header.customerId;
    if c.Some? { assert c.value in Linked(c); }
  }

  function CreatedRow(actor: Account, c: DraftCapture, now: Instant): DraftRow
    requires StoreHeader(c).Some?
  {
    DraftRow(actor.id, StoreHeader(c).value, 1, now, now)
  }

  lemma CreateDraftUnfolds(db: Db, actor: Account, c: DraftCapture, stamp: Stamp)
    requires PerformCreateDraft(db, actor, c, stamp).Done?
    ensures stamp.freshId !in db.drafts && StoreHeader(c).Some?
    ensures CustomersExist(db.customers, Linked(c.customerId)) && PlanPieces(db.pieces, stamp.freshId, c.pieces) == Planned
    ensures PerformCreateDraft(db, actor, c, stamp)
      == FinishDraft(db, stamp.freshId, CreatedRow(actor, c, stamp.now), c, None, stamp)
  {
  }

  lemma CreateDraftEffect(db: Db, actor: Account, c: DraftCapture, stamp: Stamp)
    requires TablesHold(db) && Accepted(c) && PerformCreateDraft(db, actor, c, stamp).Done?
    ensures Effect(db, PerformCreateDraft(db, actor, c, stamp))
  {
    CreateDraftUnfolds(db, actor, c, stamp);
    FinishedDraftEffect(db, stamp.freshId, CreatedRow(actor, c, stamp.now), c, None, stamp);
  }

  function SavedRow(row: DraftRow, c: DraftCapture, now: Instant): DraftRow
    requires StoreHeader(c).Some?
  {
    row.(header := StoreHeader(c).value, version := row.version + 1, updatedAt := now)
  }

  lemma SaveDraftUnfolds(db: Db, actor: Account, id: Id, v: nat, c: DraftCapture, stamp: Stamp)
    requires PerformSaveDraft(db, actor, id, v, c, stamp).Done?
    ensures id in db.drafts && db.drafts[id].version == v && v != MAX_VERSION && StoreHeader(c).Some?
    ensures CustomersExist(db.customers, Linked(c.customerId)) && PlanPieces(db.pieces, id, c.pieces) == Planned
    ensures MapDraft(db.customers, db.pieces, id, db.drafts[id], stamp.ownerBefore).Some?
    ensures PerformSaveDraft(db, actor, id, v, c, stamp) == FinishDraft(db, id, SavedRow(db.drafts[id], c, stamp.now), c,
      Some(DraftImage(MapDraft(db.customers, db.pieces, id, db.drafts[id], stamp.ownerBefore).value)), stamp)
  {
  }

  lemma SaveDraftEffect(db: Db, actor: Account, id: Id, v: nat, c: DraftCapture, stamp: Stamp)
    requires TablesHold(db) && Accepted(c) && PerformSaveDraft(db, actor, id, v, c, stamp).Done?
    ensures Effect(db, PerformSaveDraft(db, actor, id, v, c, stamp))
  {
    SaveDraftUnfolds(db, actor, id, v, c, stamp);
    MappedDraftIsCurrent(db, id, stamp.ownerBefore);
    var before := MapDraft(db.customers, db.pieces, id, db.drafts[id], stamp.ownerBefore).value;
    FinishedDraftEffect(db, id, SavedRow(db.drafts[id], c, stamp.now), c, Some(DraftImage(before)), stamp);
  }

  lemma PerformEffect(db: Db, actor: Account, intent: Intent, stamp: Stamp)
    requires TablesHold(db) && AcceptedIntent(intent) && Perform(db, actor, intent, stamp).Done?
    ensures Effect(db, Perform(db, actor, intent, stamp))
  {
    match intent
    case CreateCustomer(c) => CreateCustomerEffect(db, c, stamp);
    case UpdateCustomer(id, v, p) => UpdateCustomerEffect(db, id, v, p, stamp);
    case CreateDraft(c) => CreateDraftEffect(db, actor, c, stamp);
    case SaveDraft(id, v, c) => SaveDraftEffect(db, actor, id, v, c, stamp);
  }

  // --- Extending the history by one record ---

  /** A record that reports one effect. */
  predicate Reports(r: Record, w: Work)
    requires w.Done?
  {
    && r.after == w.after && r.before == w.before && r.afterVersion == ImageVersion(w.after)
    && r.beforeVersion == (if w.before == None then None else Some(ImageVersion(w.before.value)))
  }

  lemma SameRowKeepsTrail(a: Db, b: Db, trail: seq<Record>, y: Resource)
    requires SameRow(a, b, y) && TrailHolds(a, trail, y) && PieceLivesOn(a.pieces, b.pieces)
    ensures TrailHolds(b, trail, y)
  {
    assert EndsAtRow(b, trail, y);
    if y.DraftOf? {
      forall i | 0 <= i < |trail| ensures Belong(b.pieces, ShownIds(trail)[i], y.id) {
        assert Belong(a.pieces, ShownIds(trail)[i], y.id);
      }
    }
  }

  lemma CurrentImagesAgree(db: Db, x: Resource, a: Image, b: Image)
    requires Current(db, x, a) && Current(db, x, b)
    ensures SameRevision(a, b) && ImageVersion(a) == ImageVersion(b) && PieceIds(a) == PieceIds(b)
  {
    if x.DraftOf? {
      assert Core(a.draft) == Core(b.draft);
      assert a.draft.pieces == Core(a.draft).pieces;
      assert ImageVersion(a) == Core(a.draft).version && ImageVersion(b) == Core(b.draft).version;
    }
  }

  lemma CurrentVersion(db: Db, x: Resource, a: Image)
    requires Current(db, x, a)
    ensures Exists(db, x) && ImageVersion(a) == VersionOf(db, x)
  {
    if x.DraftOf? { assert Core(a.draft).version == a.draft.version; }
  }

  /** The pieces a current draft image shows are exactly the active pieces of that draft. */
  lemma CurrentShowsActive(db: Db, d: Id, a: Image)
    requires Current(db, DraftOf(d), a)
    ensures PieceIds(a) == ActiveIds(db.pieces, d)
  {
    var shown, ids := ActiveImages(db.pieces, d), InOrder(db.pieces, ActiveIds(db.pieces, d));
    assert Core(a.draft).pieces == a.draft.pieces == shown;
    InOrderMembers(db.pieces, ActiveIds(db.pieces, d));
    forall p ensures p in PieceIds(a) <==> p in ToSet(ids) {
      if p in ids {
        var i :| 0 <= i < |ids| && ids[i] == p;
        assert shown[i].id == p && shown[i] in shown;
      }
    }
  }

  lemma ExtendedTrailChains(db: Db, w: Work, trail: seq<Record>, r: Record)
    requires Effect(db, w) && Reports(r, w)
    requires Chained(trail) && EndsAtRow(db, trail, ResourceOf(w.after))
    ensures Chained(trail + [r]) && EndsAtRow(TablesAfter(db, w), trail + [r], ResourceOf(w.after))
  {
    var x := ResourceOf(w.after);
    if Exists(db, x) {
      CurrentVersion(db, x, w.before.value);
      CurrentImagesAgree(db, x, w.before.value, trail[|trail| - 1].after);
    }
    ChainGrows(trail, r);
  }

  lemma ChainGrows(trail: seq<Record>, r: Record)
    requires Chained(trail) && Follows(r, LastImage(trail), |trail|)
    ensures Chained(trail + [r])
  {
    var more := trail + [r];
    forall i | 0 <= i < |more| ensures LinkAt(more, i) {
      if i < |trail| {
        assert LinkAt(trail, i) && more[..i] == trail[..i] && more[i] == trail[i];
      } else {
        assert more[..i] == trail && more[i] == r;
      }
    }
  }

  predicate Supplies(t: PieceTable, shown: set<Id>, d: Id) {
    forall p | p in shown :: p in t ==> Active(t, p, d)
  }

  lemma NoReturnExtended(t: PieceTable, shown: seq<set<Id>>, ids: set<Id>, d: Id)
    requires AllBelong(t, shown, d) && NoReturn(shown) && Supplies(t, ids, d)
    requires shown != [] ==> shown[|shown| - 1] == ActiveIds(t, d)
    ensures NoReturn(shown + [ids])
  {
    var more, n := shown + [ids], |shown|;
    forall i, j, k, p | 0 <= i < j < k < |more| && p in more[i] && p !in more[j] ensures p !in more[k] {
      assert more[i] == shown[i] && more[j] == shown[j];
      if k == n {
        assert p !in shown[n - 1];
        assert Belong(t, shown[i], d);
        assert p in t && !Active(t, p, d);
      } else {
        assert more[k] == shown[k];
      }
    }
  }

  lemma BelongingLasts(t: PieceTable, u: PieceTable, shown: seq<set<Id>>, ids: set<Id>, d: Id)
    requires AllBelong(t, shown, d) && PieceLivesOn(t, u) && Belong(u, ids, d)
    ensures AllBelong(u, shown + [ids], d)
  {
    var more := shown + [ids];
    forall i | 0 <= i < |more| ensures Belong(u, more[i], d) {
      if i < |shown| { assert Belong(t, shown[i], d); }
    }
  }

  lemma ExtendedTrailKeepsPieces(t: PieceTable, u: PieceTable, trail: seq<Record>, r: Record, d: Id)
    requires PiecesStay(t, trail, d) && PieceLivesOn(t, u)
    requires Belong(u, PieceIds(r.after), d) && Supplies(t, PieceIds(r.after), d)
    requires trail != [] ==> PieceIds(trail[|trail| - 1].after) == ActiveIds(t, d)
    ensures PiecesStay(u, trail + [r], d)
  {
    assert ShownIds(trail + [r]) == ShownIds(trail) + [PieceIds(r.after)];
    NoReturnExtended(t, ShownIds(trail), PieceIds(r.after), d);
    BelongingLasts(t, u, ShownIds(trail), PieceIds(r.after), d);
  }

  lemma TrailOfExtended(log: seq<Record>, r: Record, x: Resource)
    ensures Trail(log + [r], x) == if ResourceOf(r.after) == x then Trail(log, x) + [r] else Trail(log, x)
  {
    assert (log + [r])[..|log|] == log;
    assert Trail(log, x) + [] == Trail(log, x);
  }

  lemma OwnTrailHolds(db: Db, w: Work, trail: seq<Record>, r: Record)
    requires Effect(db, w) && Reports(r, w) && TrailHolds(db, trail, ResourceOf(w.after))
    ensures TrailHolds(TablesAfter(db, w), trail + [r], ResourceOf(w.after))
  {
    var x := ResourceOf(w.after);
    ExtendedTrailChains(db, w, trail, r);
    if x.DraftOf? {
      if trail != [] { CurrentShowsActive(db, x.id, trail[|trail| - 1].after); }
      ExtendedTrailKeepsPieces(db.pieces, w.pieces, trail, r, x.id);
    }
  }

  lemma EveryTrailHolds(db: Db, log: seq<Record>, w: Work, r: Record, x: Resource)
    requires Effect(db, w) && Reports(r, w) && TrailHolds(db, Trail(log, x), x)
    ensures TrailHolds(TablesAfter(db, w), Trail(log + [r], x), x)
  {
    TrailOfExtended(log, r, x);
    if x == ResourceOf(w.after) {
      OwnTrailHolds(db, w, Trail(log, x), r);
    } else {
      SameRowKeepsTrail(db, TablesAfter(db, w), Trail(log, x), x);
    }
  }

  lemma CommandsDoNotMatter(db: Db, commands: map<Id, Record>, trail: seq<Record>, x: Resource)
    requires TrailHolds(db, trail, x)
    ensures TrailHolds(db.(commands := commands), trail, x)
  {
  }

  lemma ExtendedLedgerHolds(l: Ledger, w: Work, r: Record, after: Db)
    requires LedgerHolds(l) && Effect(l.db, w) && Reports(r, w) && MapsCleanly(r) && r.commandId !in l.db.commands
    requires after == TablesAfter(l.db, w).(commands := l.db.commands[r.commandId := r])
    ensures LedgerHolds(Ledger(after, l.log + [r]))
  {
    forall x: Resource ensures TrailHolds(after, Trail(l.log + [r], x), x) {
      EveryTrailHolds(l.db, l.log, w, r, x);
      CommandsDoNotMatter(TablesAfter(l.db, w), after.commands, Trail(l.log + [r], x), x);
    }
    LogHoldsExtended(l.db, l.log, r, after);
  }

  lemma LogHoldsExtended(db: Db, log: seq<Record>, r: Record, after: Db)
    requires LogHolds(db, log) && MapsCleanly(r)
    requires r.commandId !in db.commands && after.commands == db.commands[r.commandId := r]
    ensures LogHolds(after, log + [r])
  {
    var longer := log + [r];
    assert longer[|log|] == r;
    assert forall q | q in longer :: q in log || q == r;
    forall i, j | 0 <= i < j < |longer| ensures longer[i].commandId != longer[j].commandId {
      assert longer[i] in log;
    }
    forall id | id in after.commands ensures after.commands[id].commandId == id && after.commands[id] in longer {
      if id != r.commandId { assert db.commands[id] in log; }
    }
  }

  // --- Every run keeps the history ---

  lemma FinishedDraftParses(db: Db, id: Id, row: DraftRow, c: DraftCapture, before: Option<Image>, stamp: Stamp)
    requires Accepted(c) && PlanPieces(db.pieces, id, c.pieces) == Planned && StoreHeader(c) == Some(row.header)
    requires InRange(row.version)
    ensures
      var w := FinishDraft(db, id, row, c, before, stamp);
      w.Done? && w.after.DraftImage? && ParseDraft(w.after.draft) == Some(w.after.draft)
  {
    FinishedDraftShowsCapture(db, id, row, c, before, stamp);
    TidyImage(FinishDraft(db, id, row, c, before, stamp).after.draft, c);
  }

  predicate Tidy(w: Work) {
    w.Done? && (w.after.DraftImage? ==> ParseDraft(w.after.draft) == Some(w.after.draft))
  }

  lemma CreatedImageParses(db: Db, actor: Account, c: DraftCapture, stamp: Stamp)
    requires Accepted(c) && PerformCreateDraft(db, actor, c, stamp).Done?
    ensures Tidy(PerformCreateDraft(db, actor, c, stamp)) && PerformCreateDraft(db, actor, c, stamp).after.DraftImage?
  {
    CreateDraftUnfolds(db, actor, c, stamp);
    FinishedDraftParses(db, stamp.freshId, CreatedRow(actor, c, stamp.now), c, None, stamp);
  }

  lemma SavedImageParses(db: Db, actor: Account, id: Id, v: nat, c: DraftCapture, stamp: Stamp)
    requires TablesHold(db) && Accepted(c) && PerformSaveDraft(db, actor, id, v, c, stamp).Done?
    ensures Tidy(PerformSaveDraft(db, actor, id, v, c, stamp)) && PerformSaveDraft(db, actor, id, v, c, stamp).after.DraftImage?
  {
    SaveDraftUnfolds(db, actor, id, v, c, stamp);
    FinishedDraftParses(db, id, SavedRow(db.drafts[id], c, stamp.now), c,
      Some(DraftImage(MapDraft(db.customers, db.pieces, id, db.drafts[id], stamp.ownerBefore).value)), stamp);
  }

  lemma ImageKind(db: Db, actor: Account, intent: Intent, stamp: Stamp)
    requires Perform(db, actor, intent, stamp).Done?
    ensures ForCustomer(OperationOf(intent)) <==> Perform(db, actor, intent, stamp).after.CustomerImage?
  {
  }

  /** The image has the kind its operation asks for and passes its own schema unchanged. */
  lemma ImageFitsOperation(db: Db, actor: Account, intent: Intent, stamp: Stamp)
    requires TablesHold(db) && AcceptedIntent(intent) && Perform(db, actor, intent, stamp).Done?
    ensures Tidy(Perform(db, actor, intent, stamp))
    ensures ForCustomer(OperationOf(intent)) <==> Perform(db, actor, intent, stamp).after.CustomerImage?
  {
    ImageKind(db, actor, intent, stamp);
    if intent.CreateDraft? {
      CreatedImageParses(db, actor, intent.draft, stamp);
    } else if intent.SaveDraft? {
      SavedImageParses(db, actor, intent.draftId, intent.expected, intent.draft, stamp);
    }
  }

  /** CREATE commands have no before-image, UPDATE and SAVE commands have one. */
  lemma BeforeImageByOperation(db: Db, actor: Account, intent: Intent, stamp: Stamp)
    requires Perform(db, actor, intent, stamp).Done?
    ensures Perform(db, actor, intent, stamp).before == None <==>
      OperationOf(intent) == CREATE_CUSTOMER || OperationOf(intent) == CREATE_DRAFT
  {
    match intent
    case CreateDraft(c) => CreateDraftUnfolds(db, actor, c, stamp);
    case SaveDraft(id, v, c) => SaveDraftUnfolds(db, actor, id, v, c, stamp);
    case CreateCustomer(c) =>
    case UpdateCustomer(id, v, p) =>
  }

  lemma RecordMaps(req: Request, actor: Account, w: Work, now: Instant)
    requires Tidy(w) && (ForCustomer(OperationOf(req.intent)) <==> w.after.CustomerImage?)
    requires w.before == None <==> OperationOf(req.intent) == CREATE_CUSTOMER || OperationOf(req.intent) == CREATE_DRAFT
    requires InRange(ImageVersion(w.after)) && (w.before == None ==> ImageVersion(w.after) == 1)
    requires w.before != None ==> ImageVersion(w.after) == ImageVersion(w.before.value) + 1 && InRange(ImageVersion(w.before.value))
    requires actor.role == ADMIN || actor.department == Some(SALES)
    ensures
      var r := RecordOf(req, actor, w.before, w.after, now);
      Reports(r, w) && MapsCleanly(r) && MapResult(r, false).Success? && MapResult(r, false).data.saved == w.after
  {
  }

  lemma FreshRecordMaps(db: Db, req: Request, actor: Account, stamp: Stamp)
    requires TablesHold(db) && AcceptedIntent(req.intent) && Admit(db.users, req.actorId) == Admitted(actor)
    requires Perform(db, actor, req.intent, stamp).Done?
    ensures
      var w := Perform(db, actor, req.intent, stamp);
      var r := RecordOf(req, actor, w.before, w.after, stamp.now);
      Reports(r, w) && MapsCleanly(r) && MapResult(r, false).Success? && MapResult(r, false).data.saved == w.after
  {
    PerformEffect(db, actor, req.intent, stamp);
    ImageFitsOperation(db, actor, req.intent, stamp);
    BeforeImageByOperation(db, actor, req.intent, stamp);
    EffectVersions(db, Perform(db, actor, req.intent, stamp));
    RecordMaps(req, actor, Perform(db, actor, req.intent, stamp), stamp.now);
  }

  lemma EffectVersions(db: Db, w: Work)
    requires TablesHold(db) && Effect(db, w)
    ensures InRange(ImageVersion(w.after))
    ensures w.before == None ==> ImageVersion(w.after) == 1
    ensures w.before != None ==> ImageVersion(w.after) == ImageVersion(w.before.value) + 1 && InRange(ImageVersion(w.before.value))
  {
    var x := ResourceOf(w.after);
    CurrentVersion(TablesAfter(db, w), x, w.after);
    if w.before != None { CurrentVersion(db, x, w.before.value); }
  }

  /** What the executor stores when the work is done. */
  lemma ExecuteStores(db: Db, req: Request, actor: Account, stamp: Stamp, w: Work, r: Record)
    requires Admit(db.users, req.actorId) == Admitted(actor) && req.commandId !in db.commands
    requires w == Perform(db, actor, req.intent, stamp) && w.Done?
    requires r == RecordOf(req, actor, w.before, w.after, stamp.now) && MapResult(r, false).Success?
    ensures Execute(db, req, stamp) == (TablesAfter(db, w).(commands := db.commands[req.commandId := r]), MapResult(r, false))
  {
  }

  lemma CommitHolds(l: Ledger, req: Request, stamp: Stamp)
    requires LedgerHolds(l) && AcceptedIntent(req.intent)
    ensures LedgerHolds(Commit(l, req, stamp))
  {
    var admission := Admit(l.db.users, req.actorId);
    if admission.Admitted? && req.commandId !in l.db.commands && Perform(l.db, admission.actor, req.intent, stamp).Done? {
      var w := Perform(l.db, admission.actor, req.intent, stamp);
      var r := RecordOf(req, admission.actor, w.before, w.after, stamp.now);
      PerformEffect(l.db, admission.actor, req.intent, stamp);
      FreshRecordMaps(l.db, req, admission.actor, stamp);
      ExecuteStores(l.db, req, admission.actor, stamp, w, r);
      ExtendedLedgerHolds(l, w, r, Execute(l.db, req, stamp).0);
    } else {
      RefusalStoresNothing(l, req, stamp);
    }
  }

  lemma RefusalStoresNothing(l: Ledger, req: Request, stamp: Stamp)
    requires Admit(l.db.users, req.actorId).Admitted? && req.commandId !in l.db.commands ==>
      Perform(l.db, Admit(l.db.users, req.actorId).actor, req.intent, stamp).Refused?
    ensures Commit(l, req, stamp) == l
  {
  }

  lemma AccountsDoNotMatter(l: Ledger, users: map<Id, Account>)
    requires LedgerHolds(l) && forall u | u in users :: users[u].id == u
    ensures LedgerHolds(l.(db := l.db.(users := users)))
  {
    var after := l.db.(users := users);
    forall x: Resource ensures TrailHolds(after, Trail(l.log, x), x) {
      assert TrailHolds(l.db, Trail(l.log, x), x);
    }
    assert LogHolds(after, l.log);
  }

  lemma NextHolds(l: Ledger, e: Event)
    requires LedgerHolds(l) && Admissible(e)
    ensures LedgerHolds(Next(l, e))
  {
    match e
    case Call(req, stamp) => CommitHolds(l, req, stamp);
    case WriteAccount(a) => AccountsDoNotMatter(l, l.db.users[a.id := a]);
    case DropAccount(id) => AccountsDoNotMatter(l, l.db.users - {id});
  }

  predicate AllAdmissible(events: seq<Event>) {
    forall e | e in events :: Admissible(e)
  }

  /**
   The receipt log is the history: after any run, for every customer and draft the retained versions
   are exactly 1 to the current one, each once, the images chain, the last one is the row, every
   record still maps to its own image, and no piece that left a draft ever comes back.
   */
  lemma {:induction false} RunHolds(l: Ledger, events: seq<Event>)
    requires LedgerHolds(l) && AllAdmissible(events)
    ensures LedgerHolds(Run(l, events))
  {
    if events != [] {
      var front, last := events[..|events| - 1], events[|events| - 1];
      assert forall e | e in front :: e in events;
      RunHolds(l, front);
      assert last in events;
      NextHolds(Run(l, front), last);
    }
  }

  /** The state the migration leaves: accounts of any kind, and empty sales tables. */
  lemma InitialLedgerHolds(users: map<Id, Account>)
    requires forall u | u in users :: users[u].id == u
    ensures LedgerHolds(Ledger(Db(users, map[], map[], map[], map[]), []))
  {
  }
}

/**
 The atomic meaning of the sales commands: one call of the command executor as a
 function from the tables and the request to the new tables and the answer.
 */
module SalesModel {
  import opened Foundations
  import opened Accounts
  import opened DraftPieces
  import opened PieceRewrite
  import DateOnly
  import PaidAmount
  import Texts

  // --- What a request carries ---

  datatype OrderType = SHOP | EXTERNAL | REPAIR | GIFT | READY | ACCESSORY | ADJUSTMENT

  datatype CustomerCapture = CustomerCapture(
    name: string, phone: string, email: Option<string>, address: Option<string>, notes: Option<string>)

  datatype Patch<T> = Keep | Put(value: T)

  datatype CustomerPatch = CustomerPatch(
    name: Patch<string>, phone: Patch<string>, email: Patch<Option<string>>,
    address: Patch<Option<string>>, notes: Patch<Option<string>>)

  datatype DraftTexts = DraftTexts(
    generalNotes: Option<string>, responsibleSignature: Option<string>, repairNote: Option<string>,
    adjustmentRequested: Option<string>, adjustmentReason: Option<string>, adjustmentActionTaken: Option<string>)

  datatype DraftCapture = DraftCapture(
    orderType: OrderType, customerId: Option<Id>, deliveryDate: Option<string>, texts: DraftTexts,
    paidAmount: Option<string>, pieces: seq<PieceCapture>)

  /** The canonical intent. Its SHA-256 digest is taken to be injective, so the value itself is compared. */
  datatype Intent =
    | CreateCustomer(customer: CustomerCapture)
    | UpdateCustomer(customerId: Id, expected: nat, patch: CustomerPatch)
    | CreateDraft(draft: DraftCapture)
    | SaveDraft(draftId: Id, expected: nat, draft: DraftCapture)

  datatype Operation = CREATE_CUSTOMER | UPDATE_CUSTOMER | CREATE_DRAFT | SAVE_DRAFT

  datatype Request = Request(actorId: Id, commandId: Id, intent: Intent)

  function OperationOf(i: Intent): Operation {
    match i
    case CreateCustomer(_) => CREATE_CUSTOMER
    case UpdateCustomer(_, _, _) => UPDATE_CUSTOMER
    case CreateDraft(_) => CREATE_DRAFT
    case SaveDraft(_, _, _) => SAVE_DRAFT
  }

  function TargetOf(i: Intent): Option<Id> {
    match i
    case UpdateCustomer(id, _, _) => Some(id)
    case SaveDraft(id, _, _) => Some(id)
    case _ => None
  }

  function ExpectedOf(i: Intent): Option<nat> {
    match i
    case UpdateCustomer(_, v, _) => Some(v)
    case SaveDraft(_, v, _) => Some(v)
    case _ => None
  }

  // --- The tables ---

  datatype Customer = Customer(
    id: Id, name: string, phone: string, email: Option<string>, address: Option<string>, notes: Option<string>,
    version: nat, createdAt: Instant, updatedAt: Instant)

  datatype CustomerSummary = CustomerSummary(
    id: Id, name: string, phone: string, email: Option<string>, address: Option<string>)

  datatype StoredHeader = StoredHeader(
    orderType: OrderType, customerId: Option<Id>, deliveryDate: Option<Instant>, texts: DraftTexts, paidCents: Option<nat>)

  datatype DraftRow = DraftRow(
    ownerId: Id, header: StoredHeader, version: nat, createdAt: Instant, updatedAt: Instant)

  datatype PieceImage = PieceImage(id: Id, position: nat, values: PieceValues)

  datatype DraftDto = DraftDto(
    id: Id, version: nat, ownerId: Id, ownerName: string, orderType: OrderType, customer: Option<CustomerSummary>,
    deliveryDate: Option<string>, texts: DraftTexts, paidAmount: Option<string>,
    createdAt: Instant, updatedAt: Instant, pieces: seq<PieceImage>)

  datatype Image = CustomerImage(customer: Customer) | DraftImage(draft: DraftDto)

  datatype Record = Record(
    commandId: Id, operation: Operation, actorId: Id, actorFullName: string, actorRole: Role,
    actorDepartment: Option<Department>, requestTargetId: Option<Id>, customerId: Option<Id>, draftId: Option<Id>,
    expectedVersion: Option<nat>, beforeVersion: Option<nat>, afterVersion: nat, payload: Intent,
    before: Option<Image>, after: Image, occurredAt: Instant)

  datatype Db = Db(
    users: map<Id, Account>, customers: map<Id, Customer>, drafts: map<Id, DraftRow>,
    pieces: PieceTable, commands: map<Id, Record>)

  // --- Answers ---

  datatype SalesError =
    | Unauthorized | Restricted | WrongDepartment
    | CommandConflict | CommandNotFound | TransactionConflict
    | CustomerNotFound | CustomerVersionConflict | CustomerPhoneConflict
    | DraftNotFound | DraftVersionConflict | DraftPieceConflict
    | InvalidPieces | InvalidHeader | InternalError

  datatype Receipt = Receipt(
    commandId: Id, operation: Operation, resourceId: Id, actorId: Id, actorFullName: string, actorRole: Role,
    actorDepartment: Option<Department>, beforeVersion: Option<nat>, afterVersion: nat, occurredAt: Instant)

  datatype CommandData = CommandData(receipt: Receipt, replayed: bool, saved: Image)

  datatype Outcome = Success(data: CommandData) | Failure(error: SalesError)

  /**
   What a call takes from its surroundings: the clock, a fresh UUID, and the display name of the
   draft owner as read before and after the write (that row is not locked when an administrator saves).
   */
  datatype Stamp = Stamp(now: Instant, freshId: Id, ownerBefore: string, ownerAfter: string)

  // --- Images ---

  function SummaryOf(c: Customer): CustomerSummary {
    CustomerSummary(c.id, c.name, c.phone, c.email, c.address)
  }

  function LinkedCustomer(customers: map<Id, Customer>, id: Option<Id>): Option<CustomerSummary> {
    match id
    case None => None
    case Some(c) => if c in customers then Some(SummaryOf(customers[c])) else None
  }

  predicate ComesFirst(t: PieceTable, ids: set<Id>, m: Id)
    requires ids <= t.Keys
  {
    m in ids && forall x | x in ids ::
      x == m || t[m].position < t[x].position || (t[m].position == t[x].position && m < x)
  }

  lemma {:induction false} SomeIdComesFirst(t: PieceTable, ids: set<Id>)
    requires ids <= t.Keys && ids != {}
    ensures exists m :: ComesFirst(t, ids, m)
    decreases |ids|
  {
    var x :| x in ids;
    var rest := ids - {x};
    if rest == {} {
      assert ids == {x};
      assert ComesFirst(t, ids, x);
    } else {
      SomeIdComesFirst(t, rest);
      var m :| ComesFirst(t, rest, m);
      if t[x].position < t[m].position || (t[x].position == t[m].position && x < m) {
        assert ComesFirst(t, ids, x);
      } else {
        assert ComesFirst(t, ids, m);
      }
    }
  }

  /** The ids in ascending position. */
  function InOrder(t: PieceTable, ids: set<Id>): seq<Id>
    requires ids <= t.Keys
    decreases |ids|
  {
    if ids == {} then []
    else
      SomeIdComesFirst(t, ids);
      var m :| m in ids && ComesFirst(t, ids, m);
      [m] + InOrder(t, ids - {m})
  }

  function ImagesOf(t: PieceTable, ids: seq<Id>): (s: seq<PieceImage>)
    requires forall id | id in ids :: id in t
    ensures |s| == |ids|
  {
    seq(|ids|, i requires 0 <= i < |ids| => PieceImage(ids[i], i + 1, t[ids[i]].values))
  }

  lemma {:induction false} InOrderMembers(t: PieceTable, ids: set<Id>)
    requires ids <= t.Keys
    ensures ToSet(InOrder(t, ids)) == ids
    decreases |ids|
  {
    if ids != {} {
      SomeIdComesFirst(t, ids);
      var m :| m in ids && ComesFirst(t, ids, m);
      InOrderMembers(t, ids - {m});
      assert InOrder(t, ids) == [m] + InOrder(t, ids - {m});
      assert ToSet([m] + InOrder(t, ids - {m})) == {m} + ToSet(InOrder(t, ids - {m}));
    }
  }

  lemma InOrderStartsWith(t: PieceTable, ids: set<Id>, m: Id)
    requires ids <= t.Keys && ComesFirst(t, ids, m)
    ensures InOrder(t, ids) == [m] + InOrder(t, ids - {m})
  {
  }

  /** A list with ascending positions is the ordered list of its ids. */
  lemma {:induction false} AscendingIsInOrder(t: PieceTable, s: seq<Id>)
    requires forall id | id in s :: id in t
    requires forall i, j :: 0 <= i < j < |s| ==> t[s[i]].position < t[s[j]].position
    ensures InOrder(t, ToSet(s)) == s
  {
    if s == [] {
      assert ToSet(s) == {};
    } else {
      var rest := s[1..];
      assert s[0] in s;
      forall x | x in rest ensures t[s[0]].position < t[x].position {
        var i :| 0 <= i < |rest| && rest[i] == x;
        assert s[i + 1] == x;
      }
      assert forall x | x in s :: x == s[0] || x in rest;
      assert s == [s[0]] + rest;
      assert ToSet(s) == {s[0]} + ToSet(rest);
      assert ToSet(s) - {s[0]} == ToSet(rest);
      AscendingIsInOrder(t, rest);
      InOrderStartsWith(t, ToSet(s), s[0]);
    }
  }

  function ShownDate(t: Option<Instant>): Option<Option<string>> {
    match t
    case None => Some(None)
    case Some(d) => match DateOnly.SerializeDateOnly(d) case None => None case Some(s) => Some(Some(s))
  }

  function ShownPaid(c: Option<nat>): Option<Option<string>> {
    match c
    case None => Some(None)
    case Some(n) => match PaidAmount.MapPaidCapture(PaidAmount.DriverText(n)) case None => None case Some(s) => Some(Some(s))
  }

  /** The active pieces of a draft as its image lists them. */
  function ActiveImages(pieces: PieceTable, id: Id): seq<PieceImage> {
    InOrderMembers(pieces, ActiveIds(pieces, id));
    var ids := InOrder(pieces, ActiveIds(pieces, id));
    assert forall x | x in ids :: x in ToSet(ids);
    ImagesOf(pieces, ids)
  }

  /** The part of the image that the draft row and its pieces decide. */
  function Depict(id: Id, row: DraftRow, shown: seq<PieceImage>): Option<DraftDto> {
    match (ShownDate(row.header.deliveryDate), ShownPaid(row.header.paidCents))
    case (Some(date), Some(paid)) =>
      Some(DraftDto(id, row.version, row.ownerId, "", row.header.orderType, None, date, row.header.texts, paid,
        row.createdAt, row.updatedAt, shown))
    case _ => None
  }

  /** mapDraft; None stands for its internal errors. */
  function MapDraft(
    customers: map<Id, Customer>, pieces: PieceTable, id: Id, row: DraftRow, ownerName: string): Option<DraftDto>
  {
    match Depict(id, row, ActiveImages(pieces, id))
    case None => None
    case Some(d) => Some(d.(ownerName := ownerName, customer := LinkedCustomer(customers, row.header.customerId)))
  }

  // --- The stored form of a captured header ---

  function StoredDate(s: Option<string>): Option<Option<Instant>> {
    match s
    case None => Some(None)
    case Some(text) => match DateOnly.ParseDateOnly(text) case None => None case Some(t) => Some(Some(t))
  }

  function StoredPaid(s: Option<string>): Option<Option<nat>> {
    match s
    case None => Some(None)
    case Some(text) => if PaidAmount.Normal(text) then Some(Some(PaidAmount.CentsOf(text))) else None
  }

  /** headerValues; None when the date or the amount cannot be stored. */
  function StoreHeader(c: DraftCapture): Option<StoredHeader> {
    match (StoredDate(c.deliveryDate), StoredPaid(c.paidAmount))
    case (Some(date), Some(paid)) => Some(StoredHeader(c.orderType, c.customerId, date, c.texts, paid))
    case _ => None
  }

  // --- The work of each command ---

  datatype Work =
    | Refused(error: SalesError)
    | Done(customers: map<Id, Customer>, drafts: map<Id, DraftRow>, pieces: PieceTable, before: Option<Image>, after: Image)

  predicate PhoneTaken(customers: map<Id, Customer>, phone: string, self: Id) {
    exists id | id in customers :: id != self && customers[id].phone == phone
  }

  predicate CustomersExist(customers: map<Id, Customer>, ids: set<Id>) {
    forall id | id in ids :: id in customers
  }

  function Linked(id: Option<Id>): set<Id> {
    match id case None => {} case Some(c) => {c}
  }

  function Chosen<T>(p: Patch<T>, old_: T): T {
    match p case Keep => old_ case Put(v) => v
  }

  function Patched(c: Customer, p: CustomerPatch, now: Instant): Customer {
    Customer(c.id, Chosen(p.name, c.name), Chosen(p.phone, c.phone), Chosen(p.email, c.email),
      Chosen(p.address, c.address), Chosen(p.notes, c.notes), c.version + 1, c.createdAt, now)
  }

  datatype Planning = Planned | PlanRefused(error: SalesError)

  /** planPieces on the whole table: its size check, then the classification. */
  function PlanPieces(pieces: PieceTable, d: Id, capture: seq<PieceCapture>): Planning {
    if |capture| < 1 || |capture| > MAX_DRAFT_PIECES then PlanRefused(InvalidPieces)
    else if !Distinct(Ids(capture)) then PlanRefused(InvalidPieces)
    else match FirstObstacle(Identities(pieces), Ids(capture), d)
      case OwnedElsewhere => PlanRefused(DraftNotFound)
      case AlreadyRemoved => PlanRefused(DraftPieceConflict)
      case Clear => Planned
  }

  predicate MayOpen(actor: Account, row: DraftRow) {
    actor.role == ADMIN || row.ownerId == actor.id
  }

  function PerformCreateCustomer(db: Db, c: CustomerCapture, stamp: Stamp): Work {
    if PhoneTaken(db.customers, c.phone, stamp.freshId) then Refused(CustomerPhoneConflict)
    else if stamp.freshId in db.customers then Refused(InternalError)
    else
      var row := Customer(stamp.freshId, c.name, c.phone, c.email, c.address, c.notes, 1, stamp.now, stamp.now);
      Done(db.customers[stamp.freshId := row], db.drafts, db.pieces, None, CustomerImage(row))
  }

  function PerformUpdateCustomer(db: Db, id: Id, expected: nat, patch: CustomerPatch, stamp: Stamp): Work {
    if id !in db.customers then Refused(CustomerNotFound)
    else
      var row := db.customers[id];
      if row.version != expected || row.version == MAX_VERSION then Refused(CustomerVersionConflict)
      else if patch.phone.Put? && PhoneTaken(db.customers, patch.phone.value, id) then Refused(CustomerPhoneConflict)
      else
        var after := Patched(row, patch, stamp.now);
        Done(db.customers[id := after], db.drafts, db.pieces, Some(CustomerImage(row)), CustomerImage(after))
  }

  function PerformCreateDraft(db: Db, actor: Account, c: DraftCapture, stamp: Stamp): Work {
    var id := stamp.freshId;
    if !CustomersExist(db.customers, Linked(c.customerId)) then Refused(CustomerNotFound)
    else match PlanPieces(db.pieces, id, c.pieces)
      case PlanRefused(e) => Refused(e)
      case Planned =>
        if StoreHeader(c) == None then Refused(InvalidHeader)
        else if id in db.drafts then Refused(InternalError)
        else
          var row := DraftRow(actor.id, StoreHeader(c).value, 1, stamp.now, stamp.now);
          FinishDraft(db, id, row, c, None, stamp)
  }

  function PerformSaveDraft(db: Db, actor: Account, id: Id, expected: nat, c: DraftCapture, stamp: Stamp): Work {
    if id !in db.drafts || !MayOpen(actor, db.drafts[id]) then Refused(DraftNotFound)
    else
      var row := db.drafts[id];
      if row.version != expected || row.version == MAX_VERSION then Refused(DraftVersionConflict)
      else if !CustomersExist(db.customers, Linked(row.header.customerId) + Linked(c.customerId)) then Refused(CustomerNotFound)
      else match MapDraft(db.customers, db.pieces, id, row, stamp.ownerBefore)
        case None => Refused(InternalError)
        case Some(before) => match PlanPieces(db.pieces, id, c.pieces)
          case PlanRefused(e) => Refused(e)
          case Planned =>
            if StoreHeader(c) == None then Refused(InvalidHeader)
            else
              var changed := row.(header := StoreHeader(c).value, version := row.version + 1, updatedAt := stamp.now);
              FinishDraft(db, id, changed, c, Some(DraftImage(before)), stamp)
  }

  function FinishDraft(db: Db, id: Id, row: DraftRow, c: DraftCapture, before: Option<Image>, stamp: Stamp): Work {
    var pieces := Rewritten(db.pieces, id, c.pieces, stamp.now);
    match MapDraft(db.customers, pieces, id, row, stamp.ownerAfter)
    case None => Refused(InternalError)
    case Some(after) => Done(db.customers, db.drafts[id := row], pieces, before, DraftImage(after))
  }

  function Perform(db: Db, actor: Account, intent: Intent, stamp: Stamp): Work {
    match intent
    case CreateCustomer(c) => PerformCreateCustomer(db, c, stamp)
    case UpdateCustomer(id, v, p) => PerformUpdateCustomer(db, id, v, p, stamp)
    case CreateDraft(c) => PerformCreateDraft(db, actor, c, stamp)
    case SaveDraft(id, v, c) => PerformSaveDraft(db, actor, id, v, c, stamp)
  }

  // --- The executor ---

  datatype Admission = Admitted(actor: Account) | Denied(error: SalesError)

  function Admit(users: map<Id, Account>, actorId: Id): Admission {
    if actorId !in users then Denied(Unauthorized)
    else match BusinessAuthority(users[actorId], Some(SALES))
      case Granted => Admitted(users[actorId])
      case AccountRestricted => Denied(Restricted)
      case DepartmentDenied => Denied(WrongDepartment)
  }

  function ImageId(i: Image): Id {
    match i case CustomerImage(c) => c.id case DraftImage(d) => d.id
  }

  function ImageVersion(i: Image): nat {
    match i case CustomerImage(c) => c.version case DraftImage(d) => d.version
  }

  function ForCustomer(o: Operation): bool {
    o == CREATE_CUSTOMER || o == UPDATE_CUSTOMER
  }

  function RecordOf(req: Request, actor: Account, before: Option<Image>, after: Image, now: Instant): Record {
    var o := OperationOf(req.intent);
    Record(req.commandId, o, actor.id, actor.fullName, actor.role, actor.department, TargetOf(req.intent),
      if ForCustomer(o) then Some(ImageId(after)) else None, if ForCustomer(o) then None else Some(ImageId(after)),
      ExpectedOf(req.intent), if before == None then None else Some(ImageVersion(before.value)), ImageVersion(after),
      req.intent, before, after, now)
  }

  predicate SameBinding(r: Record, req: Request) {
    r.actorId == req.actorId && r.operation == OperationOf(req.intent) && r.requestTargetId == TargetOf(req.intent)
    && r.expectedVersion == ExpectedOf(req.intent) && r.payload == req.intent
  }

  /** requireVisibleResource. */
  predicate Visible(db: Db, actor: Account, r: Record) {
    match r.draftId
    case Some(d) => d in db.drafts && MayOpen(actor, db.drafts[d])
    case None => match r.customerId case Some(c) => c in db.customers case None => false
  }

  // --- Mapping a record to its answer, with the checks of the response schemas ---

  function Text(s: Option<string>): Option<string> {
    match s case None => None case Some(t) => Texts.NullIfBlank(t)
  }

  function TidyTexts(t: DraftTexts): DraftTexts {
    DraftTexts(Text(t.generalNotes), Text(t.responsibleSignature), Text(t.repairNote),
      Text(t.adjustmentRequested), Text(t.adjustmentReason), Text(t.adjustmentActionTaken))
  }

  function TidyValues(v: PieceValues): PieceValues {
    PieceValues(Text(v.model), Text(v.size), Text(v.leatherBase), Text(v.decoration), Text(v.decorationColor),
      Text(v.faceRight), Text(v.faceLeft), Text(v.mixing), Text(v.face), Text(v.sole), Text(v.soleAddition),
      Text(v.soleColor), Text(v.additions), Text(v.aField), Text(v.fField), Text(v.sideNotes))
  }

  predicate AcceptedDate(s: Option<string>) {
    s == None || DateOnly.IsDateOnlyString(s.value)
  }

  predicate AcceptedPaid(s: Option<string>) {
    s == None || PaidAmount.Normal(s.value)
  }

  /** What draftCaptureSchema and draftReplacementSchema hand to the service. */
  predicate Accepted(c: DraftCapture) {
    && AcceptedDate(c.deliveryDate) && AcceptedPaid(c.paidAmount) && TidyTexts(c.texts) == c.texts
    && 1 <= |c.pieces| <= MAX_DRAFT_PIECES && Distinct(Ids(c.pieces))
    && forall i | 0 <= i < |c.pieces| :: TidyValues(c.pieces[i].values) == c.pieces[i].values
  }

  predicate AcceptedIntent(i: Intent) {
    match i
    case CreateCustomer(_) => true
    case UpdateCustomer(_, v, _) => 1 <= v <= MAX_VERSION
    case CreateDraft(c) => Accepted(c)
    case SaveDraft(_, v, c) => 1 <= v <= MAX_VERSION && Accepted(c)
  }

  predicate InRange(version: nat) {
    1 <= version <= MAX_VERSION
  }

  function ParsePaid(s: Option<string>): Option<Option<string>> {
    match s
    case None => Some(None)
    case Some(text) => match PaidAmount.ParseEntry(text)
      case Blank => Some(None)
      case Refused => None
      case Amount(a) => Some(Some(a))
  }

  function TidyPieces(pieces: seq<PieceImage>): (r: seq<PieceImage>)
    ensures |r| == |pieces|
    ensures forall i | 0 <= i < |r| :: r[i] == pieces[i].(values := TidyValues(pieces[i].values))
  {
    seq(|pieces|, i requires 0 <= i < |pieces| => pieces[i].(values := TidyValues(pieces[i].values)))
  }

  function ImageIds(pieces: seq<PieceImage>): (r: seq<Id>)
    ensures |r| == |pieces|
    ensures forall i | 0 <= i < |r| :: r[i] == pieces[i].id
  {
    seq(|pieces|, i requires 0 <= i < |pieces| => pieces[i].id)
  }

  /** draftSchema. */
  function ParseDraft(d: DraftDto): Option<DraftDto> {
    if !InRange(d.version) || !AcceptedDate(d.deliveryDate) || ParsePaid(d.paidAmount) == None
      || |d.pieces| < 1 || |d.pieces| > MAX_DRAFT_PIECES || !Distinct(ImageIds(d.pieces))
      || exists i :: 0 <= i < |d.pieces| && d.pieces[i].position < 1
    then None
    else Some(d.(texts := TidyTexts(d.texts), paidAmount := ParsePaid(d.paidAmount).value, pieces := TidyPieces(d.pieces)))
  }

  predicate RevisionRule(o: Operation, before: Option<nat>, after: nat) {
    if o == CREATE_CUSTOMER || o == CREATE_DRAFT then before == None && after == 1
    else before != None && after == before.value + 1
  }

  predicate ReceiptAccepted(r: Receipt) {
    && InRange(r.afterVersion) && (r.beforeVersion != None ==> InRange(r.beforeVersion.value))
    && (r.actorRole == ADMIN || r.actorDepartment == Some(SALES))
    && RevisionRule(r.operation, r.beforeVersion, r.afterVersion)
  }

  function MapResult(r: Record, replayed: bool): Outcome {
    var resource := if ForCustomer(r.operation) then r.customerId else r.draftId;
    if resource == None then Failure(InternalError)
    else
      var receipt := Receipt(r.commandId, r.operation, resource.value, r.actorId, r.actorFullName, r.actorRole,
        r.actorDepartment, r.beforeVersion, r.afterVersion, r.occurredAt);
      if !ReceiptAccepted(receipt) then Failure(InternalError)
      else match r.after
        case CustomerImage(c) =>
          if ForCustomer(r.operation) && InRange(c.version) && c.id == resource.value && c.version == r.afterVersion
          then Success(CommandData(receipt, replayed, r.after)) else Failure(InternalError)
        case DraftImage(d) =>
          if !ForCustomer(r.operation) && ParseDraft(d).Some? && d.id == resource.value && d.version == r.afterVersion
          then Success(CommandData(receipt, replayed, DraftImage(ParseDraft(d).value))) else Failure(InternalError)
  }

  function Replay(db: Db, actor: Account, req: Request, r: Record): Outcome {
    if !SameBinding(r, req) then Failure(CommandConflict)
    else if !Visible(db, actor, r) then Failure(CommandNotFound)
    else MapResult(r, true)
  }

  /** Storing the record and mapping it; a record that does not map takes everything back. */
  function Retain(db: Db, actor: Account, req: Request, stamp: Stamp, w: Work): (Db, Outcome) {
    match w
    case Refused(e) => (db, Failure(e))
    case Done(customers, drafts, pieces, before, after) =>
      var r := RecordOf(req, actor, before, after, stamp.now);
      match MapResult(r, false)
      case Failure(e) => (db, Failure(e))
      case Success(data) =>
        (Db(db.users, customers, drafts, pieces, db.commands[req.commandId := r]), Success(data))
  }

  function Fulfil(db: Db, actor: Account, req: Request, stamp: Stamp): (Db, Outcome) {
    Retain(db, actor, req, stamp, Perform(db, actor, req.intent, stamp))
  }

  /** One whole call of the executor, had it run alone. */
  function Execute(db: Db, req: Request, stamp: Stamp): (Db, Outcome) {
    match Admit(db.users, req.actorId)
    case Denied(e) => (db, Failure(e))
    case Admitted(actor) =>
      if req.commandId in db.commands then (db, Replay(db, actor, req, db.commands[req.commandId]))
      else Fulfil(db, actor, req, stamp)
  }

  /** The observation of a command by its own actor. */
  function Observe(db: Db, actorId: Id, commandId: Id): Outcome {
    match Admit(db.users, actorId)
    case Denied(e) => Failure(e)
    case Admitted(actor) =>
      if commandId !in db.commands || db.commands[commandId].actorId != actor.id then Failure(CommandNotFound)
      else if !Visible(db, actor, db.commands[commandId]) then Failure(CommandNotFound)
      else MapResult(db.commands[commandId], true)
  }
}

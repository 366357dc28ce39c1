/** The texts of answers: what the request schemas let in, the response schemas let out, over every run. */
module SalesTexts {
  import opened Foundations
  import opened Accounts
  import opened DraftPieces
  import opened SalesModel
  import opened SalesReadBack
  import opened SalesHistory
  import CustomerPhone
  import opened SalesTheorems

  // --- What the schemas let pass unchanged ---

  predicate PersonPasses(name: string) {
    Texts.NonEmptyBounded(name, 150)
  }

  predicate NotePasses(s: Option<string>, maximum: nat) {
    s.Some? ==> Texts.ParseNote(s.value, maximum) == Some(s)
  }

  predicate ContactPasses(name: string, phone: string, address: Option<string>) {
    Texts.ParseName(name) == Some(name) && CustomerPhone.Canonical(phone) && NotePasses(address, 2000)
  }

  predicate CustomerPasses(c: Customer) {
    ContactPasses(c.name, c.phone, c.address) && NotePasses(c.notes, 4000)
  }

  predicate CustomersPass(customers: map<Id, Customer>) {
    forall c | c in customers :: CustomerPasses(customers[c])
  }

  predicate LinkedPasses(s: Option<CustomerSummary>) {
    s.Some? ==> ContactPasses(s.value.name, s.value.phone, s.value.address)
  }

  predicate TextPasses(s: Option<string>, maximum: nat) {
    s.Some? ==> Texts.ParseCapture(s.value, maximum) == Some(s)
  }

  predicate TextsPass(t: DraftTexts) {
    && TextPasses(t.generalNotes, 4000) && TextPasses(t.responsibleSignature, 150) && TextPasses(t.repairNote, 4000)
    && TextPasses(t.adjustmentRequested, 4000) && TextPasses(t.adjustmentReason, 4000)
    && TextPasses(t.adjustmentActionTaken, 4000)
  }

  predicate ValuesPass(v: PieceValues) {
    && TextPasses(v.model, 200) && TextPasses(v.size, 200) && TextPasses(v.leatherBase, 200)
    && TextPasses(v.decoration, 200) && TextPasses(v.decorationColor, 200) && TextPasses(v.faceRight, 200)
    && TextPasses(v.faceLeft, 200) && TextPasses(v.mixing, 200) && TextPasses(v.face, 200) && TextPasses(v.sole, 200)
    && TextPasses(v.soleAddition, 200) && TextPasses(v.soleColor, 200) && TextPasses(v.additions, 200)
    && TextPasses(v.aField, 200) && TextPasses(v.fField, 200) && TextPasses(v.sideNotes, 4000)
  }

  predicate ImagePasses(i: Image) {
    match i
    case CustomerImage(c) => CustomerPasses(c)
    case DraftImage(d) =>
      && PersonPasses(d.ownerName) && LinkedPasses(d.customer) && TextsPass(d.texts)
      && forall k | 0 <= k < |d.pieces| :: ValuesPass(d.pieces[k].values)
  }

  // --- What requests and account writes bring ---

  predicate CapturePasses(c: DraftCapture) {
    TextsPass(c.texts) && forall k | 0 <= k < |c.pieces| :: ValuesPass(c.pieces[k].values)
  }

  predicate IntentPasses(i: Intent) {
    match i
    case CreateCustomer(c) => ContactPasses(c.name, c.phone, c.address) && NotePasses(c.notes, 4000)
    case UpdateCustomer(_, _, p) =>
      && (p.name.Put? ==> Texts.ParseName(p.name.value) == Some(p.name.value))
      && (p.phone.Put? ==> CustomerPhone.Canonical(p.phone.value))
      && (p.address.Put? ==> NotePasses(p.address.value, 2000)) && (p.notes.Put? ==> NotePasses(p.notes.value, 4000))
    case CreateDraft(c) => CapturePasses(c)
    case SaveDraft(_, _, c) => CapturePasses(c)
  }

  predicate EventPasses(e: Event) {
    match e
    case Call(req, stamp) => AcceptedIntent(req.intent) && IntentPasses(req.intent) && PersonPasses(stamp.ownerAfter)
    case WriteAccount(a) => PersonPasses(a.fullName)
    case DropAccount(_) => true
  }

  // --- What is kept ---

  predicate RecordPasses(r: Record) {
    PersonPasses(r.actorFullName) && ImagePasses(r.after)
  }

  predicate AllPass(l: Ledger) {
    && (forall u | u in l.db.users :: PersonPasses(l.db.users[u].fullName))
    && CustomersPass(l.db.customers) && forall r | r in l.log :: RecordPasses(r)
  }

  predicate WorkTextsPass(w: Work) {
    w.Done? && CustomersPass(w.customers) && ImagePasses(w.after)
  }

  lemma NewCustomerPasses(db: Db, c: CustomerCapture, stamp: Stamp)
    requires CustomersPass(db.customers) && IntentPasses(CreateCustomer(c)) && PerformCreateCustomer(db, c, stamp).Done?
    ensures WorkTextsPass(PerformCreateCustomer(db, c, stamp))
  {
  }

  lemma PatchedPasses(row: Customer, p: CustomerPatch, now: Instant)
    requires CustomerPasses(row) && IntentPasses(UpdateCustomer(row.id, row.version, p))
    ensures CustomerPasses(Patched(row, p, now))
  {
  }

  lemma UpdatedCustomerPasses(db: Db, id: Id, v: nat, p: CustomerPatch, stamp: Stamp)
    requires CustomersPass(db.customers) && IntentPasses(UpdateCustomer(id, v, p))
    requires PerformUpdateCustomer(db, id, v, p, stamp).Done?
    ensures WorkTextsPass(PerformUpdateCustomer(db, id, v, p, stamp))
  {
    PatchedPasses(db.customers[id], p, stamp.now);
  }

  lemma ShownPasses(customers: map<Id, Customer>, d: DraftDto, c: DraftCapture)
    requires CustomersPass(customers) && CapturePasses(c) && PersonPasses(d.ownerName)
    requires Shows(d, c) && d.customer == LinkedCustomer(customers, c.customerId)
    ensures ImagePasses(DraftImage(d))
  {
  }

  lemma DraftAnswerPasses(db: Db, actorId: Id, intent: Intent, stamp: Stamp, image: Image)
    requires CustomersPass(db.customers) && IntentPasses(intent) && PersonPasses(stamp.ownerAfter)
    requires (intent.CreateDraft? || intent.SaveDraft?) && image.DraftImage? && Shows(image.draft, CaptureOf(intent))
    requires DraftTells(db, actorId, intent, stamp, image.draft)
    ensures ImagePasses(image)
  {
    ShownPasses(db.customers, image.draft, CaptureOf(intent));
  }

  lemma DraftWorkTells(db: Db, actor: Account, intent: Intent, stamp: Stamp)
    requires TablesHold(db) && AcceptedIntent(intent)
    requires !ForCustomer(OperationOf(intent)) && Perform(db, actor, intent, stamp).Done?
    ensures
      var w := Perform(db, actor, intent, stamp);
      && w.customers == db.customers && w.after.DraftImage? && Shows(w.after.draft, CaptureOf(intent))
      && DraftTells(db, actor.id, intent, stamp, w.after.draft)
  {
    DraftWorkKeepsCustomers(db, actor, intent, stamp);
    PerformShowsCapture(db, actor, intent, stamp);
    PerformTells(db, actor, intent, stamp);
  }

  lemma DraftWorkPasses(db: Db, actor: Account, intent: Intent, stamp: Stamp)
    requires TablesHold(db) && AcceptedIntent(intent)
    requires CustomersPass(db.customers) && IntentPasses(intent) && PersonPasses(stamp.ownerAfter)
    requires !ForCustomer(OperationOf(intent)) && Perform(db, actor, intent, stamp).Done?
    ensures WorkTextsPass(Perform(db, actor, intent, stamp))
  {
    DraftWorkTells(db, actor, intent, stamp);
    DraftAnswerPasses(db, actor.id, intent, stamp, Perform(db, actor, intent, stamp).after);
  }

  lemma CustomerWorkPasses(db: Db, actor: Account, intent: Intent, stamp: Stamp)
    requires CustomersPass(db.customers) && IntentPasses(intent)
    requires ForCustomer(OperationOf(intent)) && Perform(db, actor, intent, stamp).Done?
    ensures WorkTextsPass(Perform(db, actor, intent, stamp))
  {
    match intent
    case CreateCustomer(c) => NewCustomerPasses(db, c, stamp);
    case UpdateCustomer(id, v, p) => UpdatedCustomerPasses(db, id, v, p, stamp);
  }

  lemma RecordedPasses(l: Ledger, customers: map<Id, Customer>, r: Record, after: Ledger)
    requires AllPass(l) && CustomersPass(customers) && RecordPasses(r)
    requires after.db.users == l.db.users && after.db.customers == customers && after.log == l.log + [r]
    ensures AllPass(after)
  {
    assert forall q | q in after.log :: q in l.log || q == r;
  }

  lemma DoneCommits(l: Ledger, req: Request, stamp: Stamp, actor: Account)
    requires LedgerHolds(l) && AcceptedIntent(req.intent) && req.commandId !in l.db.commands
    requires Admit(l.db.users, req.actorId) == Admitted(actor) && Perform(l.db, actor, req.intent, stamp).Done?
    ensures
      var w := Perform(l.db, actor, req.intent, stamp);
      var after := Commit(l, req, stamp);
      && after.db.users == l.db.users && after.db.customers == w.customers
      && after.log == l.log + [RecordOf(req, actor, w.before, w.after, stamp.now)]
  {
    var w := Perform(l.db, actor, req.intent, stamp);
    FreshRecordMaps(l.db, req, actor, stamp);
    ExecuteStores(l.db, req, actor, stamp, w, RecordOf(req, actor, w.before, w.after, stamp.now));
  }

  lemma RecordOfWorkPasses(req: Request, actor: Account, w: Work, now: Instant)
    requires WorkTextsPass(w) && PersonPasses(actor.fullName)
    ensures RecordPasses(RecordOf(req, actor, w.before, w.after, now))
  {
  }

  lemma DoneCommitPasses(l: Ledger, req: Request, stamp: Stamp, actor: Account)
    requires LedgerHolds(l) && AllPass(l) && AcceptedIntent(req.intent) && req.commandId !in l.db.commands
    requires Admit(l.db.users, req.actorId) == Admitted(actor) && PersonPasses(actor.fullName)
    requires WorkTextsPass(Perform(l.db, actor, req.intent, stamp))
    ensures AllPass(Commit(l, req, stamp))
  {
    var w := Perform(l.db, actor, req.intent, stamp);
    DoneCommits(l, req, stamp, actor);
    RecordOfWorkPasses(req, actor, w, stamp.now);
    RecordedPasses(l, w.customers, RecordOf(req, actor, w.before, w.after, stamp.now), Commit(l, req, stamp));
  }

  lemma ActorPasses(l: Ledger, actorId: Id)
    requires AllPass(l) && Admit(l.db.users, actorId).Admitted?
    ensures PersonPasses(Admit(l.db.users, actorId).actor.fullName)
  {
  }

  lemma CommitPasses(l: Ledger, req: Request, stamp: Stamp)
    requires LedgerHolds(l) && AllPass(l) && EventPasses(Call(req, stamp))
    ensures AllPass(Commit(l, req, stamp))
  {
    var admission := Admit(l.db.users, req.actorId);
    if admission.Admitted? && req.commandId !in l.db.commands && Perform(l.db, admission.actor, req.intent, stamp).Done? {
      if ForCustomer(OperationOf(req.intent)) {
        CustomerWorkPasses(l.db, admission.actor, req.intent, stamp);
      } else {
        DraftWorkPasses(l.db, admission.actor, req.intent, stamp);
      }
      ActorPasses(l, req.actorId);
      DoneCommitPasses(l, req, stamp, admission.actor);
    } else {
      RefusalStoresNothing(l, req, stamp);
    }
  }

  lemma {:induction false} RunPasses(l: Ledger, events: seq<Event>)
    requires LedgerHolds(l) && AllPass(l) && forall e | e in events :: EventPasses(e)
    ensures LedgerHolds(Run(l, events)) && AllPass(Run(l, events))
  {
    if events != [] {
      var front, last := events[..|events| - 1], events[|events| - 1];
      assert forall e | e in front :: e in events;
      RunPasses(l, front);
      assert EventPasses(last);
      NextHolds(Run(l, front), last);
      if last.Call? { CommitPasses(Run(l, front), last.req, last.stamp); }
    }
  }

  /**
   When the texts of every request and of every account row have passed their schemas, then after any run every
   retained command is answered, and all names, phones and texts of its answer pass the response schemas unchanged.
   */
  lemma EveryAnswerPasses(l: Ledger, events: seq<Event>, id: Id, replayed: bool)
    requires LedgerHolds(l) && AllPass(l) && (forall e | e in events :: EventPasses(e))
    requires id in Run(l, events).db.commands
    ensures
      var answer := MapResult(Run(l, events).db.commands[id], replayed);
      answer.Success? && PersonPasses(answer.data.receipt.actorFullName) && ImagePasses(answer.data.saved)
  {
    RunPasses(l, events);
    var r := Run(l, events).db.commands[id];
    assert r in Run(l, events).log;
    assert MapsCleanly(r);
  }
}

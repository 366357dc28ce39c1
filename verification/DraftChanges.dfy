/** The history view of a draft: the diffs of its retained records, and what folding them gives. */
module DraftChanges {
  import opened Foundations
  import opened DraftPieces
  import opened SalesModel
  import opened SalesReadBack
  import opened SalesHistory
  import opened SalesTheorems

  datatype Field =
    | TypeField | CustomerField | DeliveryDateField | GeneralNotesField | ResponsibleSignatureField | RepairNoteField
    | AdjustmentRequestedField | AdjustmentReasonField | AdjustmentActionTakenField | PaidAmountField | PiecesField

  datatype Shown = ShownType(t: OrderType) | ShownId(id: Option<Id>) | ShownText(s: Option<string>)

  const HEADER_KEYS: seq<Field> := [
    TypeField, CustomerField, DeliveryDateField, GeneralNotesField, ResponsibleSignatureField, RepairNoteField,
    AdjustmentRequestedField, AdjustmentReasonField, AdjustmentActionTakenField, PaidAmountField]

  function HeaderValue(d: DraftDto, f: Field): Shown {
    match f
    case TypeField => ShownType(d.orderType)
    case CustomerField => ShownId(CustomerIdOf(d))
    case DeliveryDateField => ShownText(d.deliveryDate)
    case GeneralNotesField => ShownText(d.texts.generalNotes)
    case ResponsibleSignatureField => ShownText(d.texts.responsibleSignature)
    case RepairNoteField => ShownText(d.texts.repairNote)
    case AdjustmentRequestedField => ShownText(d.texts.adjustmentRequested)
    case AdjustmentReasonField => ShownText(d.texts.adjustmentReason)
    case AdjustmentActionTakenField => ShownText(d.texts.adjustmentActionTaken)
    case PaidAmountField => ShownText(d.paidAmount)
    case PiecesField => ShownText(None)
  }

  datatype DraftChange = DraftChange(changedFields: seq<Field>, addedPieceIds: set<Id>, removedPieceIds: set<Id>)

  function Differing(before: Option<DraftDto>, after: DraftDto, keys: seq<Field>): seq<Field> {
    if keys == [] then []
    else
      var last := keys[|keys| - 1];
      Differing(before, after, keys[..|keys| - 1])
        + if before == None || HeaderValue(before.value, last) != HeaderValue(after, last) then [last] else []
  }

  /** mapChange, on the images of one draft record. */
  function MapChange(before: Option<DraftDto>, after: DraftDto): DraftChange {
    var header := Differing(before, after, HEADER_KEYS);
    var beforeIds := match before case None => {} case Some(d) => set p | p in d.pieces :: p.id;
    var afterIds := set p | p in after.pieces :: p.id;
    DraftChange(
      header + if before == None || before.value.pieces != after.pieces then [PiecesField] else [],
      afterIds - beforeIds, beforeIds - afterIds)
  }

  function BeforeDraft(r: Record): Option<DraftDto> {
    match r.before case Some(DraftImage(d)) => Some(d) case _ => None
  }

  function ChangeOf(r: Record): DraftChange
    requires r.after.DraftImage?
  {
    MapChange(BeforeDraft(r), r.after.draft)
  }

  /** mapChange with its own checks: the record must map as a draft command, and its before-image must parse. */
  function MapRecordChange(r: Record): Option<DraftChange> {
    match MapResult(r, true)
    case Failure(_) => None
    case Success(data) =>
      if !data.saved.DraftImage? || ForCustomer(r.operation) then None
      else match r.before
        case None => Some(MapChange(None, data.saved.draft))
        case Some(CustomerImage(_)) => None
        case Some(DraftImage(d)) =>
          (match ParseDraft(d) case None => None case Some(p) => Some(MapChange(Some(p), data.saved.draft)))
  }

  lemma {:induction false} DifferingMembers(before: Option<DraftDto>, after: DraftDto, keys: seq<Field>, f: Field)
    ensures f in Differing(before, after, keys) <==>
      f in keys && (before == None || HeaderValue(before.value, f) != HeaderValue(after, f))
  {
    if keys != [] {
      DifferingMembers(before, after, keys[..|keys| - 1], f);
      assert keys == keys[..|keys| - 1] + [keys[|keys| - 1]];
    }
  }

  /** The change names a field exactly when the two images show it differently. */
  lemma ChangedFieldsDiffer(before: DraftDto, after: DraftDto, f: Field)
    ensures f in MapChange(Some(before), after).changedFields <==>
      if f == PiecesField then before.pieces != after.pieces else HeaderValue(before, f) != HeaderValue(after, f)
  {
    DifferingMembers(Some(before), after, HEADER_KEYS, f);
    HeaderKeysAreTheHeader(f);
  }

  /** Which part of the two images each field compares. */
  predicate Differs(before: DraftDto, after: DraftDto, f: Field) {
    match f
    case TypeField => before.orderType != after.orderType
    case CustomerField =>
      before.customer.Some? != after.customer.Some?
      || (before.customer.Some? && before.customer.value.id != after.customer.value.id)
    case DeliveryDateField => before.deliveryDate != after.deliveryDate
    case GeneralNotesField => before.texts.generalNotes != after.texts.generalNotes
    case ResponsibleSignatureField => before.texts.responsibleSignature != after.texts.responsibleSignature
    case RepairNoteField => before.texts.repairNote != after.texts.repairNote
    case AdjustmentRequestedField => before.texts.adjustmentRequested != after.texts.adjustmentRequested
    case AdjustmentReasonField => before.texts.adjustmentReason != after.texts.adjustmentReason
    case AdjustmentActionTakenField => before.texts.adjustmentActionTaken != after.texts.adjustmentActionTaken
    case PaidAmountField => before.paidAmount != after.paidAmount
    case PiecesField => before.pieces != after.pieces
  }

  /** A change names exactly the fields that differ and the pieces that came or went; a creation names all of them. */
  lemma ChangeTells(before: DraftDto, after: DraftDto, f: Field)
    ensures f in MapChange(Some(before), after).changedFields <==> Differs(before, after, f)
    ensures f in MapChange(None, after).changedFields
    ensures MapChange(Some(before), after).addedPieceIds == PieceIdSet(after) - PieceIdSet(before)
    ensures MapChange(Some(before), after).removedPieceIds == PieceIdSet(before) - PieceIdSet(after)
    ensures MapChange(None, after).addedPieceIds == PieceIdSet(after) && MapChange(None, after).removedPieceIds == {}
  {
    ChangedFieldsDiffer(before, after, f);
    DifferingMembers(None, after, HEADER_KEYS, f);
    HeaderKeysAreTheHeader(f);
  }

  function PieceIdSet(d: DraftDto): set<Id> {
    set i | 0 <= i < |d.pieces| :: d.pieces[i].id
  }

  /** Between two saves of the same draft, the change is empty exactly when the captures are the same. */
  lemma ChangeNamesTheDifference(before: DraftDto, after: DraftDto, c: DraftCapture, d: DraftCapture)
    requires Shows(before, c) && Shows(after, d)
    requires CustomerIdOf(before) == c.customerId && CustomerIdOf(after) == d.customerId
    ensures MapChange(Some(before), after).changedFields == [] <==> c == d
    ensures PiecesField in MapChange(Some(before), after).changedFields <==> c.pieces != d.pieces
  {
    var fields := MapChange(Some(before), after).changedFields;
    SamePiecesSameCapture(before, after, c, d);
    ChangedFieldsDiffer(before, after, PiecesField);
    if fields == [] {
      forall f | f != PiecesField ensures HeaderValue(before, f) == HeaderValue(after, f) {
        ChangedFieldsDiffer(before, after, f);
      }
      HeaderAgrees(before, after);
    } else {
      ChangedFieldsDiffer(before, after, fields[0]);
      assert fields[0] in fields;
    }
  }

  lemma SamePiecesSameCapture(before: DraftDto, after: DraftDto, c: DraftCapture, d: DraftCapture)
    requires Shows(before, c) && Shows(after, d)
    ensures before.pieces == after.pieces <==> c.pieces == d.pieces
  {
    if before.pieces == after.pieces {
      forall i | 0 <= i < |c.pieces| ensures c.pieces[i] == d.pieces[i] {
        assert before.pieces[i] == after.pieces[i];
      }
    }
  }

  predicate InHeader(f: Field) {
    f in HEADER_KEYS
  }

  lemma HeaderKeysAreTheHeader(f: Field)
    ensures InHeader(f) <==> f != PiecesField
  {
    match f
    case TypeField => assert HEADER_KEYS[0] == f;
    case CustomerField => assert HEADER_KEYS[1] == f;
    case DeliveryDateField => assert HEADER_KEYS[2] == f;
    case GeneralNotesField => assert HEADER_KEYS[3] == f;
    case ResponsibleSignatureField => assert HEADER_KEYS[4] == f;
    case RepairNoteField => assert HEADER_KEYS[5] == f;
    case AdjustmentRequestedField => assert HEADER_KEYS[6] == f;
    case AdjustmentReasonField => assert HEADER_KEYS[7] == f;
    case AdjustmentActionTakenField => assert HEADER_KEYS[8] == f;
    case PaidAmountField => assert HEADER_KEYS[9] == f;
    case PiecesField =>
  }

  lemma HeaderAgrees(before: DraftDto, after: DraftDto)
    requires forall f | f != PiecesField :: HeaderValue(before, f) == HeaderValue(after, f)
    ensures before.orderType == after.orderType && CustomerIdOf(before) == CustomerIdOf(after)
    ensures before.deliveryDate == after.deliveryDate && before.texts == after.texts && before.paidAmount == after.paidAmount
  {
    assert HeaderValue(before, TypeField) == HeaderValue(after, TypeField);
    assert HeaderValue(before, CustomerField) == HeaderValue(after, CustomerField);
    assert HeaderValue(before, DeliveryDateField) == HeaderValue(after, DeliveryDateField);
    assert HeaderValue(before, GeneralNotesField) == HeaderValue(after, GeneralNotesField);
    assert HeaderValue(before, ResponsibleSignatureField) == HeaderValue(after, ResponsibleSignatureField);
    assert HeaderValue(before, RepairNoteField) == HeaderValue(after, RepairNoteField);
    assert HeaderValue(before, AdjustmentRequestedField) == HeaderValue(after, AdjustmentRequestedField);
    assert HeaderValue(before, AdjustmentReasonField) == HeaderValue(after, AdjustmentReasonField);
    assert HeaderValue(before, AdjustmentActionTakenField) == HeaderValue(after, AdjustmentActionTakenField);
    assert HeaderValue(before, PaidAmountField) == HeaderValue(after, PaidAmountField);
  }

  /** Applying the retained changes one after the other. */
  function Fold(trail: seq<Record>): set<Id>
    requires forall r | r in trail :: r.after.DraftImage?
  {
    if trail == [] then {}
    else
      var change := ChangeOf(trail[|trail| - 1]);
      Fold(trail[..|trail| - 1]) + change.addedPieceIds - change.removedPieceIds
  }

  function Entering(shown: seq<set<Id>>, i: nat): set<Id>
    requires i < |shown|
  {
    shown[i] - if i == 0 then {} else shown[i - 1]
  }

  function Departing(shown: seq<set<Id>>, i: nat): set<Id>
    requires i < |shown|
  {
    if i == 0 then {} else shown[i - 1] - shown[i]
  }

  lemma AddedAndRemoved(trail: seq<Record>, i: nat)
    requires Chained(trail) && i < |trail| && forall r | r in trail :: r.after.DraftImage?
    ensures ChangeOf(trail[i]).addedPieceIds == Entering(ShownIds(trail), i)
    ensures ChangeOf(trail[i]).removedPieceIds == Departing(ShownIds(trail), i)
  {
    assert LinkAt(trail, i);
    if i > 0 {
      assert trail[i - 1] in trail;
      assert trail[..i][i - 1] == trail[i - 1];
      assert Core(BeforeDraft(trail[i]).value).pieces == Core(trail[i - 1].after.draft).pieces;
      assert BeforeDraft(trail[i]).value.pieces == trail[i - 1].after.draft.pieces;
    }
  }

  lemma {:induction false} FoldIsShown(trail: seq<Record>)
    requires Chained(trail) && forall r | r in trail :: r.after.DraftImage?
    ensures Fold(trail) == if trail == [] then {} else ShownIds(trail)[|trail| - 1]
  {
    if trail != [] {
      var n := |trail| - 1;
      var front := trail[..n];
      assert Chained(front) by {
        forall i | 0 <= i < n ensures LinkAt(front, i) {
          assert LinkAt(trail, i) && front[..i] == trail[..i];
        }
      }
      assert forall r | r in front :: r in trail;
      FoldIsShown(front);
      AddedAndRemoved(trail, n);
      assert n > 0 ==> ShownIds(front)[n - 1] == ShownIds(trail)[n - 1];
    }
  }

  lemma DraftTrailIsDrafts(log: seq<Record>, d: Id)
    ensures forall r | r in Trail(log, DraftOf(d)) :: r.after.DraftImage? && r.after.draft.id == d
  {
    forall r | r in Trail(log, DraftOf(d)) ensures r.after.DraftImage? && r.after.draft.id == d {
      TrailMembers(log, DraftOf(d), r);
    }
  }

  lemma EntersAndDepartsOnce(shown: seq<set<Id>>, i: nat, j: nat, p: Id)
    requires NoReturn(shown) && i < j < |shown|
    ensures !(p in Entering(shown, i) && p in Entering(shown, j))
    ensures !(p in Departing(shown, i) && p in Departing(shown, j))
    ensures !(p in Departing(shown, i) && p in Entering(shown, j))
  {
  }

  lemma {:induction false} ShownHasEntered(shown: seq<set<Id>>, j: nat, p: Id) returns (i: nat)
    requires j < |shown| && p in shown[j]
    ensures i <= j && p in Entering(shown, i)
  {
    if p in Entering(shown, j) {
      i := j;
    } else {
      i := ShownHasEntered(shown, j - 1, p);
    }
  }

  lemma DepartedHasEntered(shown: seq<set<Id>>, j: nat, p: Id) returns (i: nat)
    requires j < |shown| && p in Departing(shown, j)
    ensures i < j && p in Entering(shown, i)
  {
    i := ShownHasEntered(shown, j - 1, p);
  }

  lemma TrailOfDraft(l: Ledger, d: Id)
    requires LedgerHolds(l)
    ensures
      var trail := Trail(l.log, DraftOf(d));
      Chained(trail) && PiecesStay(l.db.pieces, trail, d) && forall r | r in trail :: r.after.DraftImage?
  {
    DraftTrailIsDrafts(l.log, d);
    assert TrailHolds(l.db, Trail(l.log, DraftOf(d)), DraftOf(d));
  }

  lemma LastShownIsActive(db: Db, trail: seq<Record>, d: Id)
    requires EndsAtRow(db, trail, DraftOf(d)) && d in db.drafts && db.drafts[d].version >= 1
    ensures trail != [] && ShownIds(trail)[|trail| - 1] == ActiveIds(db.pieces, d)
  {
    CurrentShowsActive(db, d, trail[|trail| - 1].after);
  }

  /** Folding the retained changes of a draft gives its active pieces. */
  lemma FoldGivesActivePieces(l: Ledger, d: Id)
    requires LedgerHolds(l)
    ensures forall r | r in Trail(l.log, DraftOf(d)) :: r.after.DraftImage?
    ensures d in l.db.drafts ==> Fold(Trail(l.log, DraftOf(d))) == ActiveIds(l.db.pieces, d)
  {
    TrailOfDraft(l, d);
    FoldIsShown(Trail(l.log, DraftOf(d)));
    if d in l.db.drafts {
      DraftTrailEndsAtRow(l, d);
      RowsHaveVersions(l.db.drafts, l.db.pieces, d);
      LastShownIsActive(l.db, Trail(l.log, DraftOf(d)), d);
    }
  }

  /** Where a record stands on the trail of its draft. */
  lemma PlaceOnTrail(l: Ledger, r: Record) returns (i: nat)
    requires LedgerHolds(l) && r in l.log && r.after.DraftImage?
    ensures
      var trail := Trail(l.log, DraftOf(r.after.draft.id));
      && i < |trail| && trail[i] == r && r.afterVersion == i + 1
      && ChangeOf(r).addedPieceIds == Entering(ShownIds(trail), i)
      && ChangeOf(r).removedPieceIds == Departing(ShownIds(trail), i)
  {
    var d := r.after.draft.id;
    var trail := Trail(l.log, DraftOf(d));
    TrailMembers(l.log, DraftOf(d), r);
    TrailOfDraft(l, d);
    i :| 0 <= i < |trail| && trail[i] == r;
    assert LinkAt(trail, i);
    AddedAndRemoved(trail, i);
  }

  lemma TouchedBelongs(t: PieceTable, shown: seq<set<Id>>, i: nat, d: Id, p: Id)
    requires AllBelong(t, shown, d) && i < |shown| && (p in Entering(shown, i) || p in Departing(shown, i))
    ensures p in t && t[p].draftId == d
  {
    assert Belong(t, shown[i], d);
    if i > 0 { assert Belong(t, shown[i - 1], d); }
  }

  /** A change only touches pieces of its own draft. */
  lemma ChangeTouchesOwnPieces(l: Ledger, r: Record, p: Id)
    requires LedgerHolds(l) && r in l.log && r.after.DraftImage?
    requires p in ChangeOf(r).addedPieceIds || p in ChangeOf(r).removedPieceIds
    ensures p in l.db.pieces && l.db.pieces[p].draftId == r.after.draft.id
  {
    var i := PlaceOnTrail(l, r);
    TrailOfDraft(l, r.after.draft.id);
    TouchedBelongs(l.db.pieces, ShownIds(Trail(l.log, DraftOf(r.after.draft.id))), i, r.after.draft.id, p);
  }

  /** A piece enters and departs at most once, and departs only later. */
  predicate OnceEach(added: set<Id>, removed: set<Id>, laterAdded: set<Id>, laterRemoved: set<Id>, p: Id) {
    !(p in added && p in laterAdded) && !(p in removed && p in laterRemoved) && !(p in removed && p in laterAdded)
  }

  lemma ShownOnceEach(shown: seq<set<Id>>, i: nat, j: nat, p: Id)
    requires NoReturn(shown) && i < j < |shown|
    ensures OnceEach(Entering(shown, i), Departing(shown, i), Entering(shown, j), Departing(shown, j), p)
  {
    EntersAndDepartsOnce(shown, i, j, p);
  }

  /** The shown ids of a draft, and the places of two of its records among them. */
  lemma TwoPlaces(l: Ledger, r: Record, q: Record) returns (shown: seq<set<Id>>, i: nat, j: nat)
    requires LedgerHolds(l) && r in l.log && q in l.log && r.after.DraftImage? && q.after.DraftImage?
    requires r.after.draft.id == q.after.draft.id && r != q
    ensures NoReturn(shown) && i < |shown| && j < |shown| && i != j
    ensures r.afterVersion == i + 1 && q.afterVersion == j + 1
    ensures ChangeOf(r).addedPieceIds == Entering(shown, i) && ChangeOf(r).removedPieceIds == Departing(shown, i)
    ensures ChangeOf(q).addedPieceIds == Entering(shown, j) && ChangeOf(q).removedPieceIds == Departing(shown, j)
  {
    i := PlaceOnTrail(l, r);
    j := PlaceOnTrail(l, q);
    TrailOfDraft(l, r.after.draft.id);
    shown := ShownIds(Trail(l.log, DraftOf(r.after.draft.id)));
  }

  lemma SameDraftOnce(l: Ledger, r: Record, q: Record, p: Id)
    requires LedgerHolds(l) && r in l.log && q in l.log && r.after.DraftImage? && q.after.DraftImage?
    requires r.after.draft.id == q.after.draft.id && r != q
    ensures !(p in ChangeOf(r).addedPieceIds && p in ChangeOf(q).addedPieceIds)
    ensures !(p in ChangeOf(r).removedPieceIds && p in ChangeOf(q).removedPieceIds)
    ensures p in ChangeOf(r).addedPieceIds && p in ChangeOf(q).removedPieceIds ==> r.afterVersion < q.afterVersion
  {
    var shown, i, j := TwoPlaces(l, r, q);
    if i < j { ShownOnceEach(shown, i, j, p); } else { ShownOnceEach(shown, j, i, p); }
  }

  /**
   Over all retained draft changes, a piece id is added at most once and removed at most once,
   and it is removed only after it was added, on the same draft.
   */
  lemma EachPieceAddedAndRemovedOnce(l: Ledger, r: Record, q: Record, p: Id)
    requires LedgerHolds(l) && r in l.log && q in l.log && r != q && r.after.DraftImage? && q.after.DraftImage?
    ensures !(p in ChangeOf(r).addedPieceIds && p in ChangeOf(q).addedPieceIds)
    ensures !(p in ChangeOf(r).removedPieceIds && p in ChangeOf(q).removedPieceIds)
    ensures p in ChangeOf(r).addedPieceIds && p in ChangeOf(q).removedPieceIds ==>
      r.after.draft.id == q.after.draft.id && r.afterVersion < q.afterVersion
  {
    if r.after.draft.id == q.after.draft.id {
      SameDraftOnce(l, r, q, p);
    } else {
      if p in ChangeOf(r).addedPieceIds || p in ChangeOf(r).removedPieceIds { ChangeTouchesOwnPieces(l, r, p); }
      if p in ChangeOf(q).addedPieceIds || p in ChangeOf(q).removedPieceIds { ChangeTouchesOwnPieces(l, q, p); }
    }
  }

  lemma RecordAt(l: Ledger, d: Id, i: nat)
    requires LedgerHolds(l) && i < |Trail(l.log, DraftOf(d))|
    ensures
      var trail := Trail(l.log, DraftOf(d));
      var r := trail[i];
      && r in l.log && r.after.DraftImage? && r.after.draft.id == d && r.afterVersion == i + 1
      && ChangeOf(r).addedPieceIds == Entering(ShownIds(trail), i)
  {
    var trail := Trail(l.log, DraftOf(d));
    TrailOfDraft(l, d);
    AddedAndRemoved(trail, i);
    TrailMembers(l.log, DraftOf(d), trail[i]);
    assert LinkAt(trail, i);
  }

  lemma RemovedHasEntered(l: Ledger, q: Record, p: Id) returns (i: nat)
    requires LedgerHolds(l) && q in l.log && q.after.DraftImage? && p in ChangeOf(q).removedPieceIds
    ensures
      var trail := Trail(l.log, DraftOf(q.after.draft.id));
      i < |trail| && i + 1 < q.afterVersion && p in Entering(ShownIds(trail), i)
  {
    var j := PlaceOnTrail(l, q);
    var shown := ShownIds(Trail(l.log, DraftOf(q.after.draft.id)));
    assert p in Departing(shown, j);
    i := DepartedHasEntered(shown, j, p);
  }

  /** Every removed piece was added by an earlier record of the same draft. */
  lemma RemovedWasAdded(l: Ledger, q: Record, p: Id) returns (r: Record)
    requires LedgerHolds(l) && q in l.log && q.after.DraftImage? && p in ChangeOf(q).removedPieceIds
    ensures r in l.log && r.after.DraftImage? && r.after.draft.id == q.after.draft.id
    ensures r.afterVersion < q.afterVersion && p in ChangeOf(r).addedPieceIds
  {
    var i := RemovedHasEntered(l, q, p);
    RecordAt(l, q.after.draft.id, i);
    r := Trail(l.log, DraftOf(q.after.draft.id))[i];
  }

  // --- No retained change is unreadable ---

  lemma ParsingIgnoresCustomerAndOwner(d: DraftDto, e: DraftDto)
    requires Core(d) == Core(e) && ParseDraft(d) == Some(d)
    ensures ParseDraft(e) == Some(e)
  {
    assert d.version == Core(d).version && e.version == Core(e).version;
    assert d.pieces == Core(d).pieces && e.pieces == Core(e).pieces;
    assert d.deliveryDate == Core(d).deliveryDate && e.deliveryDate == Core(e).deliveryDate;
    assert d.paidAmount == Core(d).paidAmount && e.paidAmount == Core(e).paidAmount;
    assert d.texts == Core(d).texts && e.texts == Core(e).texts;
  }

  lemma CleanDraftParses(r: Record)
    requires MapsCleanly(r) && r.after.DraftImage?
    ensures ParseDraft(r.after.draft) == Some(r.after.draft) && !ForCustomer(r.operation)
    ensures MapResult(r, true).Success? && MapResult(r, true).data.saved == r.after
  {
  }

  lemma BeforeImageParses(l: Ledger, r: Record)
    requires LedgerHolds(l) && r in l.log && r.after.DraftImage? && r.before.Some?
    ensures r.before.value.DraftImage? && ParseDraft(r.before.value.draft) == Some(r.before.value.draft)
  {
    var trail := Trail(l.log, DraftOf(r.after.draft.id));
    var i := PlaceOnTrail(l, r);
    TrailOfDraft(l, r.after.draft.id);
    assert LinkAt(trail, i);
    var previous := trail[i - 1];
    assert trail[..i][i - 1] == previous && previous in trail;
    TrailMembers(l.log, DraftOf(r.after.draft.id), previous);
    CleanRecord(l, previous);
    CleanDraftParses(previous);
    ParsingIgnoresCustomerAndOwner(previous.after.draft, r.before.value.draft);
  }

  lemma CleanRecord(l: Ledger, r: Record)
    requires LedgerHolds(l) && r in l.log
    ensures MapsCleanly(r)
  {
  }

  /** Every retained draft record has a readable change, namely the difference of its two images. */
  lemma EveryDraftRecordHasAChange(l: Ledger, r: Record)
    requires LedgerHolds(l) && r in l.log && r.after.DraftImage?
    ensures MapRecordChange(r) == Some(ChangeOf(r))
  {
    CleanRecord(l, r);
    CleanDraftParses(r);
    if r.before.Some? { BeforeImageParses(l, r); }
  }
}

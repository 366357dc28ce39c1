/** Save then read back: the image built after a create or a save shows the capture, field by field. */
module SalesReadBack {
  import opened Foundations
  import opened DraftPieces
  import opened PieceRewrite
  import opened SalesModel

  /** The image shows exactly the captured header and the captured pieces in their submitted order. */
  predicate Shows(d: DraftDto, c: DraftCapture) {
    && d.orderType == c.orderType && d.deliveryDate == c.deliveryDate
    && d.texts == c.texts && d.paidAmount == c.paidAmount
    && |d.pieces| == |c.pieces|
    && forall i | 0 <= i < |d.pieces| :: d.pieces[i] == PieceImage(c.pieces[i].id, i + 1, c.pieces[i].values)
  }

  predicate ShowsCustomer(d: DraftDto, customers: map<Id, Customer>, id: Option<Id>) {
    d.customer == LinkedCustomer(customers, id)
  }

  lemma DateReadsBack(s: string)
    requires DateOnly.IsDateOnlyString(s)
    ensures DateOnly.ParseDateOnly(s).Some?
    ensures DateOnly.SerializeDateOnly(DateOnly.ParseDateOnly(s).value) == Some(s)
  {
    DateOnly.SerializeAfterParse(s);
  }

  lemma PaidReadsBack(s: string)
    requires PaidAmount.Normal(s)
    ensures PaidAmount.MapPaidCapture(PaidAmount.DriverText(PaidAmount.CentsOf(s))) == Some(s)
    ensures PaidAmount.ParseEntry(s) == PaidAmount.Amount(s)
  {
    PaidAmount.NormalFormIsFixed(s);
    PaidAmount.DriverTextPrints(PaidAmount.CentsOf(s));
    PaidAmount.PaidEntryReadsBack(s, PaidAmount.DriverText(PaidAmount.CentsOf(s)));
  }

  lemma StoredDateReadsBack(s: Option<string>)
    requires AcceptedDate(s)
    ensures StoredDate(s).Some? && ShownDate(StoredDate(s).value) == Some(s)
  {
    if s.Some? { DateReadsBack(s.value); }
  }

  lemma StoredPaidReadsBack(s: Option<string>)
    requires AcceptedPaid(s)
    ensures StoredPaid(s).Some? && ShownPaid(StoredPaid(s).value) == Some(s) && ParsePaid(s) == Some(s)
  {
    if s.Some? { PaidReadsBack(s.value); }
  }

  lemma HeaderReadsBack(c: DraftCapture)
    requires AcceptedDate(c.deliveryDate) && AcceptedPaid(c.paidAmount)
    ensures StoreHeader(c).Some?
    ensures StoreHeader(c).value.orderType == c.orderType && StoreHeader(c).value.texts == c.texts
    ensures StoreHeader(c).value.customerId == c.customerId
    ensures ShownDate(StoreHeader(c).value.deliveryDate) == Some(c.deliveryDate)
    ensures ShownPaid(StoreHeader(c).value.paidCents) == Some(c.paidAmount)
    ensures ParsePaid(c.paidAmount) == Some(c.paidAmount)
  {
    StoredDateReadsBack(c.deliveryDate);
    StoredPaidReadsBack(c.paidAmount);
  }

  /** A numbered draft lists its pieces in their numbering. */
  lemma NumberedInOrder(t: PieceTable, d: Id, ids: seq<Id>)
    requires Numbered(t, d, ids)
    ensures InOrder(t, ActiveIds(t, d)) == ids
  {
    forall id | id in ids ensures id in t {
      assert id in ToSet(ids);
    }
    AscendingIsInOrder(t, ids);
  }

  lemma ListedIdsExist(t: PieceTable, d: Id)
    ensures forall id | id in InOrder(t, ActiveIds(t, d)) :: Active(t, id, d)
  {
    InOrderMembers(t, ActiveIds(t, d));
    assert forall id | id in InOrder(t, ActiveIds(t, d)) :: id in ToSet(InOrder(t, ActiveIds(t, d)));
  }

  /** The image of a row that stores the capture, over pieces that are numbered as captured. */
  lemma ImageOfCapture(customers: map<Id, Customer>, pieces: PieceTable, id: Id, row: DraftRow, name: string, c: DraftCapture)
    requires Numbered(pieces, id, Ids(c.pieces))
    requires forall i | 0 <= i < |c.pieces| :: pieces[Ids(c.pieces)[i]].values == c.pieces[i].values
    requires row.header.orderType == c.orderType && row.header.texts == c.texts && row.header.customerId == c.customerId
    requires ShownDate(row.header.deliveryDate) == Some(c.deliveryDate)
    requires ShownPaid(row.header.paidCents) == Some(c.paidAmount)
    ensures
      var m := MapDraft(customers, pieces, id, row, name);
      m.Some? && Shows(m.value, c) && ShowsCustomer(m.value, customers, c.customerId)
      && m.value.id == id && m.value.version == row.version && m.value.ownerId == row.ownerId
      && m.value.ownerName == name && m.value.createdAt == row.createdAt && m.value.updatedAt == row.updatedAt
  {
    NumberedInOrder(pieces, id, Ids(c.pieces));
    InOrderMembers(pieces, ActiveIds(pieces, id));
  }

  /** Every successful create or save answers with an image that shows the capture. */
  lemma FinishedDraftShowsCapture(db: Db, id: Id, row: DraftRow, c: DraftCapture, before: Option<Image>, stamp: Stamp)
    requires Accepted(c) && PlanPieces(db.pieces, id, c.pieces) == Planned && StoreHeader(c) == Some(row.header)
    ensures
      var w := FinishDraft(db, id, row, c, before, stamp);
      && w.Done? && w.before == before && w.after.DraftImage?
      && Shows(w.after.draft, c) && ShowsCustomer(w.after.draft, db.customers, c.customerId)
      && w.after.draft.id == id && w.after.draft.version == row.version && w.after.draft.ownerId == row.ownerId
      && Numbered(w.pieces, id, Ids(c.pieces))
  {
    HeaderReadsBack(c);
    ClearMeansAdmissible(db.pieces, Ids(c.pieces), id);
    RewriteNumbers(db.pieces, id, c.pieces, stamp.now);
    ImageOfCapture(db.customers, Rewritten(db.pieces, id, c.pieces, stamp.now), id, row, stamp.ownerAfter, c);
  }

  lemma TidyImage(d: DraftDto, c: DraftCapture)
    requires Accepted(c) && Shows(d, c) && InRange(d.version)
    ensures ParseDraft(d) == Some(d)
  {
    StoredPaidReadsBack(c.paidAmount);
    assert ImageIds(d.pieces) == Ids(c.pieces);
    assert TidyPieces(d.pieces) == d.pieces;
  }
}

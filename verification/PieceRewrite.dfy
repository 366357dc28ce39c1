/**
 The rewrite of a draft's piece rows: soft removal, the bulk shift of every active
 position by 200, the placement of retained pieces and the insertion of new ones.
 PostgreSQL checks the partial unique index after each single row update, so every
 row update here is checked the same way; the proofs show the check never fails.
 */
module PieceRewrite {
  import opened Foundations
  import opened DraftPieces

  function IndexOf(ids: seq<Id>, id: Id): (k: nat)
    ensures k <= |ids|
    ensures k < |ids| ==> ids[k] == id
    ensures k == |ids| <==> id !in ids
    ensures forall j | 0 <= j < k :: ids[j] != id
  {
    if ids == [] then 0 else if ids[0] == id then 0 else 1 + IndexOf(ids[1..], id)
  }

  lemma IndexInDistinct(ids: seq<Id>, i: nat)
    requires Distinct(ids) && i < |ids|
    ensures IndexOf(ids, ids[i]) == i
  {
    var k := IndexOf(ids, ids[i]);
    assert !(k < i) && !(i < k);
  }

  function RemovedRow(row: PieceRow, now: Instant): PieceRow {
    row.(removedAt := Some(now), updatedAt := now)
  }

  function ShiftedRow(row: PieceRow): PieceRow {
    row.(position := row.position + MAX_DRAFT_PIECES)
  }

  function PlacedRow(row: PieceRow, capture: seq<PieceCapture>, k: nat, now: Instant): PieceRow
    requires k < |capture|
  {
    row.(values := capture[k].values, position := k + 1, updatedAt := now)
  }

  function FreshRow(d: Id, capture: seq<PieceCapture>, k: nat, now: Instant): PieceRow
    requires k < |capture|
  {
    PieceRow(d, k + 1, capture[k].values, now, now, None)
  }

  /** The table a whole rewrite must leave, told row by row and not statement by statement. */
  function Rewritten(t: PieceTable, d: Id, capture: seq<PieceCapture>, now: Instant): PieceTable {
    map id | id in t.Keys + ToSet(Ids(capture)) :: FinalRow(t, d, capture, now, id)
  }

  function FinalRow(t: PieceTable, d: Id, capture: seq<PieceCapture>, now: Instant, id: Id): PieceRow
    requires id in t || id in Ids(capture)
  {
    var k := IndexOf(Ids(capture), id);
    if id !in t then FreshRow(d, capture, k, now)
    else if !Active(t, id, d) then t[id]
    else if k == |capture| then RemovedRow(t[id], now)
    else PlacedRow(t[id], capture, k, now)
  }

  /** The active pieces of draft d are exactly `ids`, numbered from one in this order. */
  predicate Numbered(t: PieceTable, d: Id, ids: seq<Id>) {
    && Distinct(ids)
    && ActiveIds(t, d) == ToSet(ids)
    && forall i | 0 <= i < |ids| :: ids[i] in t && t[ids[i]].position == i + 1
  }

  predicate Shiftable(t: PieceTable, d: Id) {
    && UniquePositions(t)
    && forall id | id in t && Active(t, id, d) :: 1 <= t[id].position <= MAX_DRAFT_PIECES
  }

  /** The stage reached when the first i captured pieces have been visited. */
  function Stage(t: PieceTable, d: Id, capture: seq<PieceCapture>, now: Instant, i: nat): PieceTable {
    map id | id in t :: StageRow(t, d, capture, now, i, id)
  }

  function StageRow(t: PieceTable, d: Id, capture: seq<PieceCapture>, now: Instant, i: nat, id: Id): PieceRow
    requires id in t
  {
    var k := IndexOf(Ids(capture), id);
    if !Active(t, id, d) then t[id]
    else if k == |capture| then RemovedRow(t[id], now)
    else if k < i then PlacedRow(t[id], capture, k, now)
    else ShiftedRow(t[id])
  }

  function RemovedTable(t: PieceTable, d: Id, ids: seq<Id>, now: Instant): PieceTable {
    map id | id in t :: if Active(t, id, d) && id in ids then RemovedRow(t[id], now) else t[id]
  }

  function ShiftedTable(t: PieceTable, d: Id): PieceTable {
    map id | id in t :: if Active(t, id, d) then ShiftedRow(t[id]) else t[id]
  }

  lemma CountsAgree(t: PieceTable, ids: seq<Id>, d: Id, plan: PiecePlan, now: Instant)
    requires PlanHolds(t, ids, d, plan)
    ensures |ActiveIds(t, d) * ToSet(plan.removedIds)| == |plan.removedIds|
    ensures |ActiveIds(RemovedTable(t, d, plan.removedIds, now), d)| == |plan.retainedIds|
  {
    var u := RemovedTable(t, d, plan.removedIds, now);
    forall id ensures id in ActiveIds(u, d) <==> id in ToSet(plan.retainedIds) {
      assert id in ActiveIds(u, d) <==> Active(u, id, d);
    }
    assert ActiveIds(u, d) == ToSet(plan.retainedIds);
    assert ActiveIds(t, d) * ToSet(plan.removedIds) == ToSet(plan.removedIds);
    SetSizeDecidesDistinct(plan.removedIds);
    SetSizeDecidesDistinct(plan.retainedIds);
  }

  lemma RemovingNothing(t: PieceTable, d: Id, now: Instant)
    ensures RemovedTable(t, d, [], now) == t
  {
  }

  lemma RemovalKeepsShiftable(t: PieceTable, d: Id, gone: seq<Id>, now: Instant)
    requires Shiftable(t, d)
    ensures Shiftable(RemovedTable(t, d, gone, now), d)
  {
    var u := RemovedTable(t, d, gone, now);
    assert forall id | id in u && u[id].removedAt == None :: id in t && u[id] == t[id];
  }

  lemma ShiftedRemovalIsStageZero(t: PieceTable, d: Id, capture: seq<PieceCapture>, plan: PiecePlan, now: Instant)
    requires PlanHolds(t, Ids(capture), d, plan)
    ensures ShiftedTable(RemovedTable(t, d, plan.removedIds, now), d) == Stage(t, d, capture, now, 0)
  {
    var u := RemovedTable(t, d, plan.removedIds, now);
    forall id | id in t ensures ShiftedTable(u, d)[id] == StageRow(t, d, capture, now, 0, id) {}
  }

  lemma PlacementDoesNotClash(t: PieceTable, d: Id, capture: seq<PieceCapture>, now: Instant, i: nat)
    requires Distinct(Ids(capture)) && i < |capture| <= MAX_DRAFT_PIECES && Shiftable(t, d)
    requires Active(t, capture[i].id, d)
    ensures !Clashes(Stage(t, d, capture, now, i), capture[i].id, PlacedRow(t[capture[i].id], capture, i, now))
    ensures Stage(t, d, capture, now, i)[capture[i].id] == ShiftedRow(t[capture[i].id])
    ensures Stage(t, d, capture, now, i + 1)
      == Stage(t, d, capture, now, i)[capture[i].id := PlacedRow(t[capture[i].id], capture, i, now)]
  {
    IndexInDistinct(Ids(capture), i);
  }

  lemma SkippingFreshKeepsStage(t: PieceTable, d: Id, capture: seq<PieceCapture>, now: Instant, i: nat)
    requires i < |capture| && !Active(t, capture[i].id, d)
    ensures Stage(t, d, capture, now, i + 1) == Stage(t, d, capture, now, i)
  {
    assert forall id | id in t && IndexOf(Ids(capture), id) == i :: id == capture[i].id;
  }

  /** One turn of the placement loop: either the placement succeeds, or the piece is collected. */
  lemma VisitPiece(
    t: PieceTable, d: Id, capture: seq<PieceCapture>, plan: PiecePlan, now: Instant, i: nat, newRows: seq<NewRow>)
    requires Shiftable(t, d) && PlanHolds(t, Ids(capture), d, plan) && i < |capture|
    requires Collected(capture, d, plan.newIds, now, i, newRows)
    ensures capture[i].id in plan.retainedIds <==> Active(t, capture[i].id, d)
    ensures capture[i].id in plan.newIds <==> !Active(t, capture[i].id, d)
    ensures Active(t, capture[i].id, d) ==>
      var stage, row := Stage(t, d, capture, now, i), PlacedRow(ShiftedRow(t[capture[i].id]), capture, i, now);
      && Active(stage, capture[i].id, d) && PlacedRow(stage[capture[i].id], capture, i, now) == row
      && !Clashes(stage, capture[i].id, row)
      && Stage(t, d, capture, now, i + 1) == stage[capture[i].id := row]
      && Collected(capture, d, plan.newIds, now, i + 1, newRows)
    ensures !Active(t, capture[i].id, d) ==>
      && Stage(t, d, capture, now, i + 1) == Stage(t, d, capture, now, i)
      && Collected(capture, d, plan.newIds, now, i + 1, newRows + [NewRow(capture[i].id, FreshRow(d, capture, i, now))])
  {
    var id := capture[i].id;
    assert id == Ids(capture)[i];
    CollectOne(capture, d, plan.newIds, now, i, newRows);
    if Active(t, id, d) {
      PlacementDoesNotClash(t, d, capture, now, i);
    } else {
      SkippingFreshKeepsStage(t, d, capture, now, i);
    }
  }

  predicate OneEach(newRows: seq<NewRow>) {
    forall i, j :: 0 <= i < j < |newRows| ==> newRows[i].id != newRows[j].id
  }

  /** Every row to insert is the fresh row of one captured piece. */
  predicate RowsFit(capture: seq<PieceCapture>, d: Id, now: Instant, newRows: seq<NewRow>) {
    && OneEach(newRows)
    && forall r | r in newRows ::
      r.id in Ids(capture) && r.row == FreshRow(d, capture, IndexOf(Ids(capture), r.id), now)
  }

  /** The rows collected for insertion when i captured pieces have been visited. */
  predicate Collected(capture: seq<PieceCapture>, d: Id, added: seq<Id>, now: Instant, i: nat, newRows: seq<NewRow>) {
    && RowsFit(capture, d, now, newRows)
    && (forall r | r in newRows :: r.id in added && IndexOf(Ids(capture), r.id) < i)
    && (forall id | id in added && id in Ids(capture) && IndexOf(Ids(capture), id) < i ::
      NewRow(id, FreshRow(d, capture, IndexOf(Ids(capture), id), now)) in newRows)
  }

  lemma CollectOne(capture: seq<PieceCapture>, d: Id, added: seq<Id>, now: Instant, i: nat, newRows: seq<NewRow>)
    requires i < |capture| && Distinct(Ids(capture)) && Collected(capture, d, added, now, i, newRows)
    ensures capture[i].id in added ==>
      Collected(capture, d, added, now, i + 1, newRows + [NewRow(capture[i].id, FreshRow(d, capture, i, now))])
    ensures capture[i].id !in added ==> Collected(capture, d, added, now, i + 1, newRows)
  {
    IndexInDistinct(Ids(capture), i);
    var row := NewRow(capture[i].id, FreshRow(d, capture, i, now));
    assert forall r | r in newRows :: r.id != row.id;
    assert forall r | r in newRows + [row] :: r in newRows || r == row;
    assert OneEach(newRows + [row]);
    assert forall id | id in Ids(capture) && IndexOf(Ids(capture), id) == i :: id == capture[i].id;
  }

  lemma {:induction false} WithRows(t: PieceTable, newRows: seq<NewRow>)
    requires OneEach(newRows)
    ensures forall r | r in newRows :: r.id in With(t, newRows) && With(t, newRows)[r.id] == r.row
    ensures forall id | id in t :: id in With(t, newRows)
    ensures forall id | id in With(t, newRows) ::
      NewRow(id, With(t, newRows)[id]) in newRows || (id in t && With(t, newRows)[id] == t[id])
  {
    if newRows != [] {
      var front, last := newRows[..|newRows| - 1], newRows[|newRows| - 1];
      WithRows(t, front);
      assert newRows == front + [last];
      assert forall r | r in front :: r.id != last.id;
    }
  }

  /** Whether the rows can be inserted one after the other. */
  function InsertOutcome(t: PieceTable, newRows: seq<NewRow>): WriteResult {
    if newRows == [] then PiecesWritten
    else
      var front, last := newRows[..|newRows| - 1], newRows[|newRows| - 1];
      var earlier := InsertOutcome(t, front);
      if earlier != PiecesWritten then earlier
      else if last.id in With(t, front) then PieceIdTaken
      else if Clashes(With(t, front), last.id, last.row) then PositionTaken
      else PiecesWritten
  }

  lemma {:induction false} OutcomeIsFinal(t: PieceTable, newRows: seq<NewRow>, j: nat)
    requires j <= |newRows| && InsertOutcome(t, newRows[..j]) != PiecesWritten
    ensures InsertOutcome(t, newRows) == InsertOutcome(t, newRows[..j])
  {
    if j == |newRows| {
      assert newRows[..j] == newRows;
    } else {
      var front := newRows[..|newRows| - 1];
      assert front[..j] == newRows[..j];
      OutcomeIsFinal(t, front, j);
    }
  }

  predicate AnyTaken(t: PieceTable, newRows: seq<NewRow>) {
    exists r | r in newRows :: r.id in t
  }

  /** Active rows of d stand at their submitted index. */
  predicate PositionsByIndex(t: PieceTable, d: Id, ids: seq<Id>) {
    forall id | id in t && Active(t, id, d) :: id in ids && t[id].position == IndexOf(ids, id) + 1
  }

  lemma FreshRowDoesNotClash(t: PieceTable, d: Id, capture: seq<PieceCapture>, now: Instant, id: Id)
    requires PositionsByIndex(t, d, Ids(capture)) && id in Ids(capture)
    ensures !Clashes(t, id, FreshRow(d, capture, IndexOf(Ids(capture), id), now))
    ensures PositionsByIndex(t[id := FreshRow(d, capture, IndexOf(Ids(capture), id), now)], d, Ids(capture))
  {
  }

  lemma {:induction false} CollectedRowsFit(t: PieceTable, d: Id, capture: seq<PieceCapture>, now: Instant, newRows: seq<NewRow>)
    requires PositionsByIndex(t, d, Ids(capture)) && RowsFit(capture, d, now, newRows)
    ensures PositionsByIndex(With(t, newRows), d, Ids(capture))
    ensures InsertOutcome(t, newRows) == if AnyTaken(t, newRows) then PieceIdTaken else PiecesWritten
  {
    if newRows != [] {
      var front, last := newRows[..|newRows| - 1], newRows[|newRows| - 1];
      assert newRows == front + [last];
      CollectedRowsFit(t, d, capture, now, front);
      WithRows(t, front);
      assert last in newRows;
      FreshRowDoesNotClash(With(t, front), d, capture, now, last.id);
      assert AnyTaken(t, newRows) <==> AnyTaken(t, front) || last.id in t;
      assert forall r | r in front :: r.id != last.id;
    }
  }

  lemma LastStageByIndex(t: PieceTable, d: Id, capture: seq<PieceCapture>, now: Instant)
    ensures PositionsByIndex(Stage(t, d, capture, now, |capture|), d, Ids(capture))
  {
  }

  lemma FinalRowOfTable(
    t: PieceTable, d: Id, capture: seq<PieceCapture>, plan: PiecePlan, now: Instant, newRows: seq<NewRow>, id: Id)
    requires PlanHolds(t, Ids(capture), d, plan) && NoneTaken(t, plan.newIds)
    requires Collected(capture, d, plan.newIds, now, |capture|, newRows)
    ensures id in With(Stage(t, d, capture, now, |capture|), newRows) <==> id in Rewritten(t, d, capture, now)
    ensures id in Rewritten(t, d, capture, now) ==>
      With(Stage(t, d, capture, now, |capture|), newRows)[id] == Rewritten(t, d, capture, now)[id]
  {
    var stage := Stage(t, d, capture, now, |capture|);
    var w := With(stage, newRows);
    WithRows(stage, newRows);
    if id in t {
      assert NewRow(id, w[id]) !in newRows;
      assert w[id] == stage[id];
    } else if id in Ids(capture) {
      assert id in plan.newIds;
      assert NewRow(id, FreshRow(d, capture, IndexOf(Ids(capture), id), now)) in newRows;
    }
  }

  /** Inserting the collected rows ends the rewrite, unless another draft took one of the new ids. */
  lemma InsertionEndsRewrite(
    t: PieceTable, d: Id, capture: seq<PieceCapture>, plan: PiecePlan, now: Instant, newRows: seq<NewRow>)
    requires PlanHolds(t, Ids(capture), d, plan)
    requires Collected(capture, d, plan.newIds, now, |capture|, newRows)
    ensures InsertOutcome(Stage(t, d, capture, now, |capture|), newRows)
      == if NoneTaken(t, plan.newIds) then PiecesWritten else PieceIdTaken
    ensures NoneTaken(t, plan.newIds) ==>
      With(Stage(t, d, capture, now, |capture|), newRows) == Rewritten(t, d, capture, now)
  {
    var stage := Stage(t, d, capture, now, |capture|);
    LastStageByIndex(t, d, capture, now);
    CollectedRowsFit(stage, d, capture, now, newRows);
    assert AnyTaken(stage, newRows) <==> !NoneTaken(t, plan.newIds) by {
      if id :| id in plan.newIds && id in t {
        assert NewRow(id, FreshRow(d, capture, IndexOf(Ids(capture), id), now)) in newRows;
        assert id in stage;
      }
    }
    if NoneTaken(t, plan.newIds) {
      var w, final := With(stage, newRows), Rewritten(t, d, capture, now);
      forall id
        ensures id in w <==> id in final
        ensures id in w ==> w[id] == final[id]
      {
        FinalRowOfTable(t, d, capture, plan, now, newRows, id);
      }
      SameRows(w, final);
    }
  }

  lemma SameRows(a: PieceTable, b: PieceTable)
    requires forall id :: id in a <==> id in b
    requires forall id | id in a :: a[id] == b[id]
    ensures a == b
  {
  }

  /** Active rows of two drafts never meet, so numbering each draft gives the unique index. */
  lemma RewriteNumbers(t: PieceTable, d: Id, capture: seq<PieceCapture>, now: Instant)
    requires Distinct(Ids(capture)) && Admissible(t, Ids(capture), d)
    ensures Numbered(Rewritten(t, d, capture, now), d, Ids(capture))
    ensures forall i | 0 <= i < |capture| :: Rewritten(t, d, capture, now)[Ids(capture)[i]].values == capture[i].values
  {
    var ids, u := Ids(capture), Rewritten(t, d, capture, now);
    forall id ensures id in ActiveIds(u, d) <==> id in ToSet(ids) {
      assert id in ActiveIds(u, d) <==> Active(u, id, d);
    }
    forall i | 0 <= i < |ids| ensures ids[i] in u && u[ids[i]].position == i + 1 && u[ids[i]].values == capture[i].values {
      IndexInDistinct(ids, i);
      assert ids[i] in ToSet(ids);
    }
  }

  /** A piece keeps its draft for ever, and a removed row never changes again. */
  predicate PieceLivesOn(t: PieceTable, u: PieceTable) {
    forall id | id in t :: id in u && u[id].draftId == t[id].draftId && u[id].createdAt == t[id].createdAt
      && (t[id].removedAt != None ==> u[id] == t[id])
  }

  lemma RewriteKeepsIdentity(t: PieceTable, d: Id, capture: seq<PieceCapture>, now: Instant)
    ensures PieceLivesOn(t, Rewritten(t, d, capture, now))
    ensures forall id | id in Rewritten(t, d, capture, now) && id !in t :: Active(Rewritten(t, d, capture, now), id, d)
    ensures forall id | id in t && t[id].draftId != d :: Rewritten(t, d, capture, now)[id] == t[id]
  {
  }

  /**
   From t to u by a save of draft d, column by column. A piece that left the capture keeps all its values and its
   position and is only marked; a piece that stayed has the captured values and its creation time; a new one starts now.
   */
  predicate EveryFate(t: PieceTable, u: PieceTable, d: Id, capture: seq<PieceCapture>, now: Instant) {
    && u.Keys == t.Keys + ToSet(Ids(capture))
    && (forall id | id in t && t[id].draftId == d && t[id].removedAt == None && id !in Ids(capture) ::
          u[id] == PieceRow(d, t[id].position, t[id].values, t[id].createdAt, now, Some(now)))
    && (forall i | 0 <= i < |capture| ::
          var id := capture[i].id;
          id in u && u[id] == PieceRow(d, i + 1, capture[i].values, if id in t then t[id].createdAt else now, now, None))
    && forall id | id in t && (t[id].draftId != d || t[id].removedAt != None) :: u[id] == t[id]
  }

  lemma EveryPieceHasItsFate(t: PieceTable, d: Id, capture: seq<PieceCapture>, now: Instant)
    requires Distinct(Ids(capture)) && Admissible(t, Ids(capture), d)
    ensures EveryFate(t, Rewritten(t, d, capture, now), d, capture, now)
  {
    var ids, u := Ids(capture), Rewritten(t, d, capture, now);
    forall i | 0 <= i < |capture| ensures IndexOf(ids, capture[i].id) == i && ids[i] == capture[i].id && ids[i] in ids {
      IndexInDistinct(ids, i);
    }
  }

  /** The check of one row refuses exactly the writes that would break the unique index. */
  lemma ClashesExactlyWhenTheIndexBreaks(t: PieceTable, id: Id, row: PieceRow)
    requires UniquePositions(t)
    ensures Clashes(t, id, row) <==> !UniquePositions(t[id := row])
  {
    var u := t[id := row];
    if Clashes(t, id, row) {
      var other :| other in t && other != id && Active(t, other, row.draftId) && t[other].position == row.position;
      assert u[other].position == u[id].position;
    }
  }

  datatype Statement = Affected(count: nat) | UniqueViolation

  datatype WriteResult = PiecesWritten | CountMismatch | PieceIdTaken | PositionTaken

  datatype NewRow = NewRow(id: Id, row: PieceRow)

  class PieceRows {
    var rows: PieceTable

    constructor ()
      ensures rows == map[]
    {
      rows := map[];
    }

    /** One row update, with the immediate check of the unique index. */
    method UpdateRow(id: Id, row: PieceRow) returns (ok: bool)
      modifies this
      ensures ok <==> !Clashes(old(rows), id, row)
      ensures rows == if ok then old(rows)[id := row] else old(rows)
    {
      ok := !Clashes(rows, id, row);
      if ok {
        rows := rows[id := row];
      }
    }

    /** updateMany: mark the listed active pieces of the draft as removed, in any row order. */
    method SoftRemove(d: Id, ids: seq<Id>, now: Instant) returns (s: Statement)
      modifies this
      ensures s == Affected(|ActiveIds(old(rows), d) * ToSet(ids)|)
      ensures rows == RemovedTable(old(rows), d, ids, now)
    {
      var matching := ActiveIds(rows, d) * ToSet(ids);
      var todo := matching;
      while todo != {}
        invariant todo <= matching
        invariant rows == map id | id in old(rows) ::
          if id in matching - todo then RemovedRow(old(rows)[id], now) else old(rows)[id]
        decreases |todo|
      {
        var id :| id in todo;
        assert id in rows && rows[id] == old(rows)[id];
        var ok := UpdateRow(id, RemovedRow(rows[id], now));
        todo := todo - {id};
      }
      s := Affected(|matching|);
    }

    /** updateMany: move every active position of the draft up by 200, in any row order. */
    method ShiftActive(d: Id) returns (s: Statement)
      modifies this
      ensures Shiftable(old(rows), d) ==> s == Affected(|ActiveIds(old(rows), d)|)
      ensures s.Affected? ==> rows == ShiftedTable(old(rows), d)
      ensures s.Affected? ==> s.count == |ActiveIds(old(rows), d)|
    {
      var matching := ActiveIds(rows, d);
      var todo := matching;
      while todo != {}
        invariant todo <= matching
        invariant rows == map id | id in old(rows) ::
          if id in matching - todo then ShiftedRow(old(rows)[id]) else old(rows)[id]
        decreases |todo|
      {
        var id :| id in todo;
        assert id in rows && rows[id] == old(rows)[id];
        assert Shiftable(old(rows), d) ==> !Clashes(rows, id, ShiftedRow(rows[id]));
        var ok := UpdateRow(id, ShiftedRow(rows[id]));
        if !ok {
          return UniqueViolation;
        }
        todo := todo - {id};
      }
      s := Affected(|matching|);
    }

    /** updateMany on one retained piece: its values and its final position. */
    method PlaceRetained(d: Id, piece: PieceCapture, position: nat, now: Instant) returns (s: Statement)
      modifies this
      ensures !Active(old(rows), piece.id, d) ==> s == Affected(0) && rows == old(rows)
      ensures Active(old(rows), piece.id, d) ==>
        var row := old(rows)[piece.id].(values := piece.values, position := position, updatedAt := now);
        if Clashes(old(rows), piece.id, row) then s == UniqueViolation && rows == old(rows)
        else s == Affected(1) && rows == old(rows)[piece.id := row]
    {
      if !Active(rows, piece.id, d) {
        return Affected(0);
      }
      var ok := UpdateRow(piece.id, rows[piece.id].(values := piece.values, position := position, updatedAt := now));
      s := if ok then Affected(1) else UniqueViolation;
    }

    /** createMany: a taken piece id or a taken position refuses the statement. */
    method InsertAll(newRows: seq<NewRow>) returns (r: WriteResult)
      modifies this
      ensures r == InsertOutcome(old(rows), newRows)
      ensures r.PiecesWritten? ==> rows == With(old(rows), newRows)
    {
      for j := 0 to |newRows|
        invariant rows == With(old(rows), newRows[..j])
        invariant InsertOutcome(old(rows), newRows[..j]) == PiecesWritten
      {
        ghost var front := newRows[..j + 1];
        assert front[..|front| - 1] == newRows[..j] && front[|front| - 1] == newRows[j];
        if newRows[j].id in rows {
          OutcomeIsFinal(old(rows), newRows, j + 1);
          return PieceIdTaken;
        }
        var ok := UpdateRow(newRows[j].id, newRows[j].row);
        if !ok {
          OutcomeIsFinal(old(rows), newRows, j + 1);
          return PositionTaken;
        }
      }
      assert newRows[..|newRows|] == newRows;
      r := PiecesWritten;
    }

    /**
     Under the draft lock no count check fails and no row update violates the unique index;
     the only refusal left is a new piece id that another draft took in the meantime.
     */
    method WritePieces(d: Id, capture: seq<PieceCapture>, plan: PiecePlan, now: Instant) returns (r: WriteResult)
      modifies this
      ensures Shiftable(old(rows), d) && PlanHolds(old(rows), Ids(capture), d, plan) ==>
        if NoneTaken(old(rows), plan.newIds)
        then r == PiecesWritten && rows == Rewritten(old(rows), d, capture, now)
        else r == PieceIdTaken
    {
      ghost var t := rows;
      ghost var good := Shiftable(t, d) && PlanHolds(t, Ids(capture), d, plan);
      if good {
        CountsAgree(t, Ids(capture), d, plan, now);
        RemovingNothing(t, d, now);
        RemovalKeepsShiftable(t, d, plan.removedIds, now);
        ShiftedRemovalIsStageZero(t, d, capture, plan, now);
      }
      if |plan.removedIds| > 0 {
        var removed := SoftRemove(d, plan.removedIds, now);
        if removed != Affected(|plan.removedIds|) {
          return CountMismatch;
        }
      }
      var shifted := ShiftActive(d);
      if shifted.UniqueViolation? {
        return PositionTaken;
      }
      if shifted.count != |plan.retainedIds| {
        return CountMismatch;
      }
      r := PlaceAndInsert(t, d, capture, plan, now);
    }

    method PlaceAndInsert(ghost t: PieceTable, d: Id, capture: seq<PieceCapture>, plan: PiecePlan, now: Instant)
      returns (r: WriteResult)
      modifies this
      ensures Shiftable(t, d) && PlanHolds(t, Ids(capture), d, plan) && old(rows) == Stage(t, d, capture, now, 0) ==>
        if NoneTaken(t, plan.newIds)
        then r == PiecesWritten && rows == Rewritten(t, d, capture, now)
        else r == PieceIdTaken
    {
      ghost var good := Shiftable(t, d) && PlanHolds(t, Ids(capture), d, plan) && rows == Stage(t, d, capture, now, 0);
      var retained, added := ToSet(plan.retainedIds), ToSet(plan.newIds);
      var newRows: seq<NewRow> := [];
      for index := 0 to |capture|
        invariant good ==> rows == Stage(t, d, capture, now, index)
        invariant good ==> Collected(capture, d, plan.newIds, now, index, newRows)
      {
        var piece, position := capture[index], index + 1;
        if good { VisitPiece(t, d, capture, plan, now, index, newRows); }
        if piece.id in retained {
          var changed := PlaceRetained(d, piece, position, now);
          if changed.UniqueViolation? {
            return PositionTaken;
          }
          if changed.count != 1 {
            return CountMismatch;
          }
        } else if piece.id in added {
          newRows := newRows + [NewRow(piece.id, PieceRow(d, position, piece.values, now, now, None))];
        }
      }
      if good { InsertionEndsRewrite(t, d, capture, plan, now, newRows); }
      r := PiecesWritten;
      if |newRows| > 0 {
        r := InsertAll(newRows);
      }
    }
  }

  function With(t: PieceTable, newRows: seq<NewRow>): PieceTable {
    if newRows == [] then t
    else var last := newRows[|newRows| - 1]; With(t, newRows[..|newRows| - 1])[last.id := last.row]
  }
}

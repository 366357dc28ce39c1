/**
 The pieces of a draft: classification of the submitted piece ids, and the
 statement-by-statement rewrite of the piece rows under the draft lock.
 */
module DraftPieces {
  import opened Foundations

  const MAX_DRAFT_PIECES: nat := 200

  datatype PieceValues = PieceValues(
    model: Option<string>, size: Option<string>, leatherBase: Option<string>, decoration: Option<string>,
    decorationColor: Option<string>, faceRight: Option<string>, faceLeft: Option<string>, mixing: Option<string>,
    face: Option<string>, sole: Option<string>, soleAddition: Option<string>, soleColor: Option<string>,
    additions: Option<string>, aField: Option<string>, fField: Option<string>, sideNotes: Option<string>)

  datatype PieceCapture = PieceCapture(id: Id, values: PieceValues)

  datatype PieceRow = PieceRow(
    draftId: Id, position: nat, values: PieceValues,
    createdAt: Instant, updatedAt: Instant, removedAt: Option<Instant>)

  type PieceTable = map<Id, PieceRow>

  datatype PieceIdentity = PieceIdentity(id: Id, draftId: Id, removedAt: Option<Instant>)

  datatype PiecePlan = PiecePlan(retainedIds: seq<Id>, newIds: seq<Id>, removedIds: seq<Id>)

  datatype PlanResult = ValidPlan(plan: PiecePlan) | ForeignPiece | RemovedPiece | DuplicatePiece

  predicate Active(t: PieceTable, id: Id, d: Id) {
    id in t && t[id].draftId == d && t[id].removedAt == None
  }

  function ActiveIds(t: PieceTable, d: Id): set<Id> {
    set id | id in t && Active(t, id, d)
  }

  /** The partial unique index on (draft, position) of the rows that are not removed. */
  predicate UniquePositions(t: PieceTable) {
    forall a, b | a in t && b in t && a != b && t[a].removedAt == None && t[b].removedAt == None && t[a].draftId == t[b].draftId ::
      t[a].position != t[b].position
  }

  predicate Clashes(t: PieceTable, id: Id, row: PieceRow) {
    row.removedAt == None &&
    exists other | other in t :: other != id && Active(t, other, row.draftId) && t[other].position == row.position
  }

  function Ids(capture: seq<PieceCapture>): (ids: seq<Id>)
    ensures |ids| == |capture|
    ensures forall i | 0 <= i < |ids| :: ids[i] == capture[i].id
  {
    seq(|capture|, i requires 0 <= i < |capture| => capture[i].id)
  }

  // --- Classification of the submitted ids ---

  datatype Obstacle = Clear | OwnedElsewhere | AlreadyRemoved

  function ObstacleAt(known: map<Id, PieceIdentity>, id: Id, d: Id): Obstacle {
    if id !in known then Clear
    else if known[id].draftId != d then OwnedElsewhere
    else if known[id].removedAt != None then AlreadyRemoved
    else Clear
  }

  /** The first obstacle in submission order decides the verdict. */
  function FirstObstacle(known: map<Id, PieceIdentity>, ids: seq<Id>, d: Id): (o: Obstacle)
    ensures o == Clear <==> forall i | 0 <= i < |ids| :: ObstacleAt(known, ids[i], d) == Clear
    ensures o != Clear ==> exists i | 0 <= i < |ids| ::
      ObstacleAt(known, ids[i], d) == o && forall j | 0 <= j < i :: ObstacleAt(known, ids[j], d) == Clear
  {
    if ids == [] then Clear
    else if ObstacleAt(known, ids[0], d) != Clear then
      ObstacleAt(known, ids[0], d)
    else
      var o := FirstObstacle(known, ids[1..], d);
      assert forall i | 0 <= i < |ids| - 1 :: ids[1..][i] == ids[i + 1];
      assert o != Clear ==> exists i | 0 <= i < |ids| ::
        ObstacleAt(known, ids[i], d) == o && forall j | 0 <= j < i :: ObstacleAt(known, ids[j], d) == Clear by {
        if o != Clear {
          var i :| 0 <= i < |ids| - 1 && ObstacleAt(known, ids[1..][i], d) == o
            && forall j | 0 <= j < i :: ObstacleAt(known, ids[1..][j], d) == Clear;
          assert forall j | 0 <= j < i + 1 :: ObstacleAt(known, ids[j], d) == Clear by {
            forall j | 0 <= j < i + 1 ensures ObstacleAt(known, ids[j], d) == Clear {
              if j > 0 { assert ids[j] == ids[1..][j - 1]; }
            }
          }
          assert ids[i + 1] == ids[1..][i];
        }
      }
      o
  }

  /** `new Map(rows.map(...))`: a later row with the same id replaces an earlier one. */
  function Index(rows: seq<PieceIdentity>): map<Id, PieceIdentity> {
    if rows == [] then map[]
    else var last := rows[|rows| - 1]; Index(rows[..|rows| - 1])[last.id := last]
  }

  function KnownAmong(ids: seq<Id>, known: map<Id, PieceIdentity>): seq<Id> {
    if ids == [] then []
    else
      var last := ids[|ids| - 1];
      KnownAmong(ids[..|ids| - 1], known) + if last in known then [last] else []
  }

  function UnknownAmong(ids: seq<Id>, known: map<Id, PieceIdentity>): seq<Id> {
    if ids == [] then []
    else
      var last := ids[|ids| - 1];
      UnknownAmong(ids[..|ids| - 1], known) + if last in known then [] else [last]
  }

  predicate Leaves(row: PieceIdentity, submitted: set<Id>, d: Id) {
    row.draftId == d && row.removedAt == None && row.id !in submitted
  }

  function Leaving(rows: seq<PieceIdentity>, submitted: set<Id>, d: Id): seq<Id> {
    if rows == [] then []
    else
      var last := rows[|rows| - 1];
      Leaving(rows[..|rows| - 1], submitted, d) + if Leaves(last, submitted, d) then [last.id] else []
  }

  method ClassifyDraftPieces(submittedIds: seq<Id>, existing: seq<PieceIdentity>, draftId: Id) returns (result: PlanResult)
    ensures result.DuplicatePiece? <==> !Distinct(submittedIds)
    ensures result.ForeignPiece? <==>
      Distinct(submittedIds) && FirstObstacle(Index(existing), submittedIds, draftId) == OwnedElsewhere
    ensures result.RemovedPiece? <==>
      Distinct(submittedIds) && FirstObstacle(Index(existing), submittedIds, draftId) == AlreadyRemoved
    ensures result.ValidPlan? ==>
      && result.plan.retainedIds == KnownAmong(submittedIds, Index(existing))
      && result.plan.newIds == UnknownAmong(submittedIds, Index(existing))
      && result.plan.removedIds == Leaving(existing, ToSet(submittedIds), draftId)
  {
    var submitted := ToSet(submittedIds);
    SetSizeDecidesDistinct(submittedIds);
    if |submitted| != |submittedIds| {
      return DuplicatePiece;
    }
    var byId: map<Id, PieceIdentity> := map[];
    for i := 0 to |existing|
      invariant byId == Index(existing[..i])
    {
      assert existing[..i + 1][..i] == existing[..i];
      byId := byId[existing[i].id := existing[i]];
    }
    assert existing[..|existing|] == existing;
    var retainedIds: seq<Id>, newIds: seq<Id> := [], [];
    for i := 0 to |submittedIds|
      invariant retainedIds == KnownAmong(submittedIds[..i], byId)
      invariant newIds == UnknownAmong(submittedIds[..i], byId)
      invariant forall j | 0 <= j < i :: ObstacleAt(byId, submittedIds[j], draftId) == Clear
    {
      var id := submittedIds[i];
      assert submittedIds[..i + 1][..i] == submittedIds[..i];
      if id !in byId {
        newIds := newIds + [id];
        continue;
      }
      if byId[id].draftId != draftId {
        FirstObstacleIs(byId, submittedIds, draftId, i);
        return ForeignPiece;
      }
      if byId[id].removedAt != None {
        FirstObstacleIs(byId, submittedIds, draftId, i);
        return RemovedPiece;
      }
      retainedIds := retainedIds + [id];
    }
    assert submittedIds[..|submittedIds|] == submittedIds;
    var removedIds: seq<Id> := [];
    for i := 0 to |existing|
      invariant removedIds == Leaving(existing[..i], submitted, draftId)
    {
      assert existing[..i + 1][..i] == existing[..i];
      if existing[i].draftId == draftId && existing[i].removedAt == None && existing[i].id !in submitted {
        removedIds := removedIds + [existing[i].id];
      }
    }
    result := ValidPlan(PiecePlan(retainedIds, newIds, removedIds));
  }

  lemma FirstObstacleIs(known: map<Id, PieceIdentity>, ids: seq<Id>, d: Id, i: nat)
    requires i < |ids|
    requires forall j | 0 <= j < i :: ObstacleAt(known, ids[j], d) == Clear
    requires ObstacleAt(known, ids[i], d) != Clear
    ensures FirstObstacle(known, ids, d) == ObstacleAt(known, ids[i], d)
  {
    var o := FirstObstacle(known, ids, d);
    var k :| 0 <= k < |ids| && ObstacleAt(known, ids[k], d) == o
      && forall j | 0 <= j < k :: ObstacleAt(known, ids[j], d) == Clear;
    assert !(k < i) && !(i < k);
  }

  // --- Planning on the queried rows ---

  function Identity(t: PieceTable, id: Id): PieceIdentity
    requires id in t
  {
    PieceIdentity(id, t[id].draftId, t[id].removedAt)
  }

  function Identities(t: PieceTable): map<Id, PieceIdentity> {
    map id | id in t :: Identity(t, id)
  }

  /** The rows planPieces asks for: active rows of this draft, and every row with a submitted id. */
  function Queried(t: PieceTable, ids: seq<Id>, d: Id): set<Id> {
    set id | id in t && (Active(t, id, d) || id in ids)
  }

  /** The rows list the wanted part of the table, each row once, in whatever order. */
  predicate Lists(rows: seq<PieceIdentity>, t: PieceTable, wanted: set<Id>) {
    && OneRowEach(rows)
    && (forall r | r in rows :: r.id in wanted && r.id in t && r == Identity(t, r.id))
    && (forall id | id in wanted :: id in t && Identity(t, id) in rows)
  }

  predicate OneRowEach(rows: seq<PieceIdentity>) {
    forall i, j :: 0 <= i < j < |rows| ==> rows[i].id != rows[j].id
  }

  lemma {:induction false} IndexOfDistinctRows(rows: seq<PieceIdentity>)
    requires OneRowEach(rows)
    ensures forall r | r in rows :: r.id in Index(rows) && Index(rows)[r.id] == r
    ensures forall id | id in Index(rows) :: Index(rows)[id].id == id && Index(rows)[id] in rows
  {
    if rows != [] {
      var front, last := rows[..|rows| - 1], rows[|rows| - 1];
      IndexOfDistinctRows(front);
      assert rows == front + [last];
      assert forall r | r in front :: r.id != last.id;
    }
  }

  lemma {:induction false} SelectionOf(ids: seq<Id>, known: map<Id, PieceIdentity>)
    ensures ToSet(KnownAmong(ids, known)) == set id | id in ids && id in known
    ensures ToSet(UnknownAmong(ids, known)) == set id | id in ids && id !in known
    ensures |KnownAmong(ids, known)| + |UnknownAmong(ids, known)| == |ids|
  {
    if ids != [] {
      var front, last := ids[..|ids| - 1], ids[|ids| - 1];
      SelectionOf(front, known);
      assert ids == front + [last];
      assert ToSet(KnownAmong(ids, known)) == ToSet(KnownAmong(front, known)) + if last in known then {last} else {};
      assert ToSet(UnknownAmong(ids, known)) == ToSet(UnknownAmong(front, known)) + if last in known then {} else {last};
    }
  }

  lemma {:induction false} SelectionDistinct(ids: seq<Id>, known: map<Id, PieceIdentity>)
    requires Distinct(ids)
    ensures Distinct(KnownAmong(ids, known)) && Distinct(UnknownAmong(ids, known))
  {
    if ids != [] {
      var front, last := ids[..|ids| - 1], ids[|ids| - 1];
      var k, u := KnownAmong(front, known), UnknownAmong(front, known);
      SelectionDistinct(front, known);
      SelectionOf(front, known);
      assert last !in front;
      assert last !in ToSet(k) && last !in ToSet(u);
      if last in known { AppendDistinct(k, last); } else { AppendDistinct(u, last); }
    }
  }

  lemma {:induction false} SelectionAgrees(ids: seq<Id>, a: map<Id, PieceIdentity>, b: map<Id, PieceIdentity>)
    requires forall id | id in ids :: id in a <==> id in b
    ensures KnownAmong(ids, a) == KnownAmong(ids, b)
    ensures UnknownAmong(ids, a) == UnknownAmong(ids, b)
  {
    if ids != [] {
      SelectionAgrees(ids[..|ids| - 1], a, b);
      assert ids[|ids| - 1] in ids;
    }
  }

  lemma {:induction false} ObstacleAgrees(ids: seq<Id>, a: map<Id, PieceIdentity>, b: map<Id, PieceIdentity>, d: Id)
    requires forall id | id in ids :: ObstacleAt(a, id, d) == ObstacleAt(b, id, d)
    ensures FirstObstacle(a, ids, d) == FirstObstacle(b, ids, d)
  {
    if ids != [] {
      assert ids[0] in ids;
      ObstacleAgrees(ids[1..], a, b, d);
    }
  }

  lemma {:induction false} LeavingOf(rows: seq<PieceIdentity>, submitted: set<Id>, d: Id)
    ensures forall r | r in rows && Leaves(r, submitted, d) :: r.id in Leaving(rows, submitted, d)
    ensures forall id | id in Leaving(rows, submitted, d) :: exists r :: r in rows && r.id == id && Leaves(r, submitted, d)
    ensures OneRowEach(rows) ==> Distinct(Leaving(rows, submitted, d))
  {
    if rows != [] {
      var front, last := rows[..|rows| - 1], rows[|rows| - 1];
      LeavingOf(front, submitted, d);
      assert rows == front + [last];
      var before := Leaving(front, submitted, d);
      if OneRowEach(rows) {
        assert OneRowEach(front) && forall r | r in front :: r.id != last.id;
        assert last.id !in before;
        AppendDistinct(before, last.id);
      }
    }
  }

  /**
   Classifying on the queried rows gives what classifying on the whole table would give:
   the same verdict, the same retained and new ids, and the same removed ids as a set.
   */
  lemma {:induction false} QueriedRowsSuffice(t: PieceTable, rows: seq<PieceIdentity>, ids: seq<Id>, d: Id)
    requires Lists(rows, t, Queried(t, ids, d))
    ensures FirstObstacle(Index(rows), ids, d) == FirstObstacle(Identities(t), ids, d)
    ensures KnownAmong(ids, Index(rows)) == KnownAmong(ids, Identities(t))
    ensures UnknownAmong(ids, Index(rows)) == UnknownAmong(ids, Identities(t))
    ensures ToSet(Leaving(rows, ToSet(ids), d)) == ActiveIds(t, d) - ToSet(ids)
    ensures Distinct(Leaving(rows, ToSet(ids), d))
  {
    IndexOfDistinctRows(rows);
    forall id | id in ids
      ensures id in Index(rows) <==> id in Identities(t)
      ensures ObstacleAt(Index(rows), id, d) == ObstacleAt(Identities(t), id, d)
    {
      if id in t {
        assert id in Queried(t, ids, d);
        assert Index(rows)[Identity(t, id).id] == Identity(t, id);
      }
    }
    SelectionAgrees(ids, Index(rows), Identities(t));
    ObstacleAgrees(ids, Index(rows), Identities(t), d);
    LeavingOf(rows, ToSet(ids), d);
    forall id ensures id in Leaving(rows, ToSet(ids), d) <==> id in ActiveIds(t, d) - ToSet(ids) {
      if id in ActiveIds(t, d) - ToSet(ids) {
        assert id in Queried(t, ids, d);
        assert Leaves(Identity(t, id), ToSet(ids), d);
      }
    }
  }

  /**
   What a valid plan says about the table: retained and new ids partition the submitted ids,
   retained and removed ids partition the draft's active ids. The draft lock keeps this true.
   */
  ghost predicate PlanHolds(t: PieceTable, ids: seq<Id>, d: Id, plan: PiecePlan) {
    && 1 <= |ids| <= MAX_DRAFT_PIECES && Distinct(ids)
    && Distinct(plan.retainedIds) && Distinct(plan.newIds) && Distinct(plan.removedIds)
    && (forall id :: id in plan.retainedIds <==> id in ids && Active(t, id, d))
    && (forall id :: id in plan.newIds <==> id in ids && !Active(t, id, d))
    && (forall id :: id in plan.removedIds <==> id !in ids && Active(t, id, d))
  }

  /** No new id is in the table yet; another draft may end this at any time before the insertion. */
  predicate NoneTaken(t: PieceTable, ids: seq<Id>) {
    forall id | id in ids :: id !in t
  }

  /** Every submitted id that the table already holds is an active piece of this draft. */
  predicate Admissible(t: PieceTable, ids: seq<Id>, d: Id) {
    forall id | id in ids && id in t :: Active(t, id, d)
  }

  lemma {:induction false} ClearMeansAdmissible(t: PieceTable, ids: seq<Id>, d: Id)
    ensures FirstObstacle(Identities(t), ids, d) == Clear <==> Admissible(t, ids, d)
  {
    if Admissible(t, ids, d) {
      forall i | 0 <= i < |ids| ensures ObstacleAt(Identities(t), ids[i], d) == Clear {
        assert ids[i] in ids;
      }
    }
    if FirstObstacle(Identities(t), ids, d) == Clear {
      forall id | id in ids && id in t ensures Active(t, id, d) {
        var i :| 0 <= i < |ids| && ids[i] == id;
        assert ObstacleAt(Identities(t), ids[i], d) == Clear;
      }
    }
  }

  lemma {:induction false} ValidPlanHolds(t: PieceTable, rows: seq<PieceIdentity>, ids: seq<Id>, d: Id)
    requires Lists(rows, t, Queried(t, ids, d))
    requires 1 <= |ids| <= MAX_DRAFT_PIECES && Distinct(ids)
    requires FirstObstacle(Index(rows), ids, d) == Clear
    ensures PlanHolds(t, ids, d,
      PiecePlan(KnownAmong(ids, Index(rows)), UnknownAmong(ids, Index(rows)), Leaving(rows, ToSet(ids), d)))
    ensures NoneTaken(t, UnknownAmong(ids, Index(rows)))
  {
    QueriedRowsSuffice(t, rows, ids, d);
    ClearMeansAdmissible(t, ids, d);
    var known, unknown := KnownAmong(ids, Identities(t)), UnknownAmong(ids, Identities(t));
    var leaving := Leaving(rows, ToSet(ids), d);
    SelectionOf(ids, Identities(t));
    SelectionDistinct(ids, Identities(t));
    forall id
      ensures id in known <==> id in ids && Active(t, id, d)
      ensures id in unknown <==> id in ids && !Active(t, id, d)
      ensures id in leaving <==> id !in ids && Active(t, id, d)
    {
      assert id in known <==> id in ToSet(known);
      assert id in unknown <==> id in ToSet(unknown);
      assert id in leaving <==> id in ToSet(leaving);
    }
  }
}

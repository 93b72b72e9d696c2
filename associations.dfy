/**
 * Rows of the workspace association tables and the queries run over them.
 *
 * Both tables hold rows of the same shape. The base table holds one row per
 * content entity (the latest revision a workspace tracks for it); the revision
 * table holds one row per tracked revision. A table is a sequence of rows in
 * the order the database returns them; no query here sorts.
 */
module Associations {
  import opened Wrappers

  type WorkspaceId = string
  type EntityTypeId = string
  type EntityId = nat
  type RevisionId = nat

  datatype Row = Row(
    workspace: WorkspaceId,
    typeId: EntityTypeId,
    entityId: EntityId,
    revisionId: RevisionId,
    pushed: bool,
    deployed: bool)

  // ---------------------------------------------------------------------------
  // getTrackedEntities: the filtered query and the two shapes of its output
  // ---------------------------------------------------------------------------

  /** The optional `pushed` condition; `None` is PHP's NULL, which adds no condition. */
  predicate PushedMatches(pushed: Option<bool>, row: Row) {
    pushed.None? || row.pushed == pushed.value
  }

  predicate InWorkspace(row: Row, w: WorkspaceId, pushed: Option<bool>) {
    row.workspace == w && PushedMatches(pushed, row)
  }

  /** The records of the select query: the rows of `w`, filtered by `pushed`, in table order. */
  function Select(rows: seq<Row>, w: WorkspaceId, pushed: Option<bool>): (r: seq<Row>)
    ensures forall x :: x in r <==> x in rows && InWorkspace(x, w, pushed)
    ensures forall x :: multiset(r)[x] == if InWorkspace(x, w, pushed) then multiset(rows)[x] else 0
  {
    if rows == [] then []
    else
      assert rows == [rows[0]] + rows[1..];
      var rest := Select(rows[1..], w, pushed);
      if InWorkspace(rows[0], w, pushed) then [rows[0]] + rest else rest
  }

  /** One `{entity_type_id, revision_id, entity_id}` entry of the flat output. */
  datatype TrackedRevision = TrackedRevision(entityTypeId: EntityTypeId, revisionId: RevisionId, entityId: EntityId)

  function AsTracked(row: Row): TrackedRevision {
    TrackedRevision(row.typeId, row.revisionId, row.entityId)
  }

  /** The flat output: one entry appended per record. */
  function Flatten(records: seq<Row>): (r: seq<TrackedRevision>)
    ensures |r| == |records|
    ensures forall i :: 0 <= i < |records| ==> r[i] == AsTracked(records[i])
  {
    if records == [] then []
    else Flatten(records[..|records| - 1]) + [AsTracked(records[|records| - 1])]
  }

  /** The grouped output: entity type id -> revision id -> entity id. */
  type Grouped = map<EntityTypeId, map<RevisionId, EntityId>>

  /** `$tracked_revisions[type][revision] = entity`: a later record overwrites an earlier one. */
  function Put(g: Grouped, row: Row): Grouped {
    var inner := if row.typeId in g then g[row.typeId] else map[];
    g[row.typeId := inner[row.revisionId := row.entityId]]
  }

  /** The grouped output after every record has been written, in order. */
  function Group(records: seq<Row>): Grouped {
    if records == [] then map[]
    else Put(Group(records[..|records| - 1]), records[|records| - 1])
  }

  /**
   * The grouped output holds a type and revision exactly when some record
   * carries them, and holds no empty group.
   */
  lemma {:induction false} GroupKeys(records: seq<Row>)
    ensures forall t :: t in Group(records) ==> Group(records)[t] != map[]
    ensures forall i :: 0 <= i < |records| ==>
      records[i].typeId in Group(records) && records[i].revisionId in Group(records)[records[i].typeId]
    ensures forall t, rev :: t in Group(records) && rev in Group(records)[t] ==>
      exists i :: 0 <= i < |records| && records[i].typeId == t && records[i].revisionId == rev
  {
    if records != [] {
      var n := |records| - 1;
      var prefix := records[..n];
      GroupKeys(prefix);
      var g0, g := Group(prefix), Group(records);
      assert g == Put(g0, records[n]);
      forall i | 0 <= i < |records|
        ensures records[i].typeId in g && records[i].revisionId in g[records[i].typeId]
      {
        if i < n {
          assert prefix[i] == records[i];
        }
      }
      forall t, rev | t in g && rev in g[t]
        ensures exists i :: 0 <= i < |records| && records[i].typeId == t && records[i].revisionId == rev
      {
        if t == records[n].typeId && rev == records[n].revisionId {
          assert records[n].typeId == t && records[n].revisionId == rev;
        } else {
          assert t in g0 && rev in g0[t];
          var i :| 0 <= i < n && prefix[i].typeId == t && prefix[i].revisionId == rev;
          assert records[i] == prefix[i];
        }
      }
    }
  }

  /** Record `i` is the last one written under `t` and `rev`. */
  predicate LastWrite(records: seq<Row>, i: int, t: EntityTypeId, rev: RevisionId) {
    && 0 <= i < |records|
    && records[i].typeId == t && records[i].revisionId == rev
    && forall j :: i < j < |records| ==> records[j].typeId != t || records[j].revisionId != rev
  }

  /** The entity id stored under a type and revision is that of the last record with that key. */
  lemma {:induction false} GroupValueIsLastWrite(records: seq<Row>, t: EntityTypeId, rev: RevisionId)
    requires t in Group(records) && rev in Group(records)[t]
    ensures exists i :: LastWrite(records, i, t, rev) && records[i].entityId == Group(records)[t][rev]
  {
    var n := |records| - 1;
    var last := records[n];
    if last.typeId == t && last.revisionId == rev {
      assert LastWrite(records, n, t, rev);
    } else {
      var prefix := records[..n];
      assert Group(records) == Put(Group(prefix), last);
      assert t in Group(prefix) && rev in Group(prefix)[t];
      GroupValueIsLastWrite(prefix, t, rev);
      var i :| LastWrite(prefix, i, t, rev) && prefix[i].entityId == Group(prefix)[t][rev];
      assert LastWrite(records, i, t, rev);
    }
  }

  // ---------------------------------------------------------------------------
  // isEntityTracked
  // ---------------------------------------------------------------------------

  predicate TracksEntity(row: Row, typeId: EntityTypeId, entityId: EntityId, pushed: Option<bool>) {
    row.typeId == typeId && row.entityId == entityId && PushedMatches(pushed, row)
  }

  /** Row `i` is the first row, in table order, about the entity. */
  predicate FirstTrackingRow(rows: seq<Row>, i: int, typeId: EntityTypeId, entityId: EntityId, pushed: Option<bool>) {
    0 <= i < |rows| && TracksEntity(rows[i], typeId, entityId, pushed)
    && forall j :: 0 <= j < i ==> !TracksEntity(rows[j], typeId, entityId, pushed)
  }

  /** There is only one first row about an entity. */
  lemma FirstTrackingRowUnique(rows: seq<Row>, i: int, j: int, typeId: EntityTypeId, entityId: EntityId, pushed: Option<bool>)
    requires FirstTrackingRow(rows, i, typeId, entityId, pushed) && FirstTrackingRow(rows, j, typeId, entityId, pushed)
    ensures i == j
  {
  }

  /** The indices of the rows about one entity that belong to workspace `w`. */
  ghost function TrackingIndices(rows: seq<Row>, typeId: EntityTypeId, entityId: EntityId, pushed: Option<bool>,
                                 w: WorkspaceId): set<int>
  {
    set i | 0 <= i < |rows| && TracksEntity(rows[i], typeId, entityId, pushed) && rows[i].workspace == w
  }

  /** The rows of `w` about the entity: those before the last row, and the last row if it is one. */
  lemma TrackingIndicesStep(rows: seq<Row>, typeId: EntityTypeId, entityId: EntityId, pushed: Option<bool>, w: WorkspaceId)
    requires rows != []
    ensures var n := |rows| - 1;
      TrackingIndices(rows, typeId, entityId, pushed, w)
      == TrackingIndices(rows[..n], typeId, entityId, pushed, w)
         + (if TracksEntity(rows[n], typeId, entityId, pushed) && rows[n].workspace == w then {n} else {})
  {
  }

  /** The last row's workspace, when the last row is about the entity. */
  function LastTracking(rows: seq<Row>, typeId: EntityTypeId, entityId: EntityId, pushed: Option<bool>): seq<WorkspaceId>
    requires rows != []
  {
    var n := |rows| - 1;
    if TracksEntity(rows[n], typeId, entityId, pushed) then [rows[n].workspace] else []
  }

  /** Appending the last row's entry keeps one entry per row of each workspace. */
  lemma TrackedByCountStep(rows: seq<Row>, typeId: EntityTypeId, entityId: EntityId, pushed: Option<bool>, rest: seq<WorkspaceId>)
    requires rows != []
    requires forall w :: multiset(rest)[w] == |TrackingIndices(rows[..|rows| - 1], typeId, entityId, pushed, w)|
    ensures forall w :: (multiset(rest + LastTracking(rows, typeId, entityId, pushed))[w]
      == |TrackingIndices(rows, typeId, entityId, pushed, w)|)
  {
    forall w {
      TrackingIndicesStep(rows, typeId, entityId, pushed, w);
    }
  }

  /** Appending the last row's entry keeps the membership and the first entry right. */
  lemma TrackedByMemberStep(rows: seq<Row>, typeId: EntityTypeId, entityId: EntityId, pushed: Option<bool>, rest: seq<WorkspaceId>)
    requires rows != []
    requires var prefix := rows[..|rows| - 1];
      (forall w :: w in rest <==>
        exists i :: 0 <= i < |prefix| && TracksEntity(prefix[i], typeId, entityId, pushed) && prefix[i].workspace == w)
      && (rest != [] ==> exists i :: FirstTrackingRow(prefix, i, typeId, entityId, pushed) && prefix[i].workspace == rest[0])
    ensures var r := rest + LastTracking(rows, typeId, entityId, pushed);
      (forall w :: w in r <==>
        exists i :: 0 <= i < |rows| && TracksEntity(rows[i], typeId, entityId, pushed) && rows[i].workspace == w)
      && (r != [] ==> exists i :: FirstTrackingRow(rows, i, typeId, entityId, pushed) && rows[i].workspace == r[0])
  {
    var n := |rows| - 1;
    var prefix := rows[..n];
    assert forall i :: 0 <= i < n ==> prefix[i] == rows[i];
    var r := rest + LastTracking(rows, typeId, entityId, pushed);
    if rest != [] {
      var i :| FirstTrackingRow(prefix, i, typeId, entityId, pushed) && prefix[i].workspace == rest[0];
      assert FirstTrackingRow(rows, i, typeId, entityId, pushed);
    } else if r != [] {
      forall j | 0 <= j < n ensures !TracksEntity(rows[j], typeId, entityId, pushed) {
        assert prefix[j] == rows[j] && prefix[j].workspace !in rest;
      }
      assert FirstTrackingRow(rows, n, typeId, entityId, pushed);
    }
  }

  /** The `workspace` column of the rows about one entity, in table order: one entry per such row. */
  function TrackedBy(rows: seq<Row>, typeId: EntityTypeId, entityId: EntityId, pushed: Option<bool>)
    : (r: seq<WorkspaceId>)
    ensures |r| <= |rows|
    ensures forall w :: w in r <==>
      exists i :: 0 <= i < |rows| && TracksEntity(rows[i], typeId, entityId, pushed) && rows[i].workspace == w
    ensures r != [] ==>
      exists i :: FirstTrackingRow(rows, i, typeId, entityId, pushed) && rows[i].workspace == r[0]
    ensures forall w :: multiset(r)[w] == |TrackingIndices(rows, typeId, entityId, pushed, w)|
  {
    if rows == [] then []
    else
      var rest := TrackedBy(rows[..|rows| - 1], typeId, entityId, pushed);
      TrackedByCountStep(rows, typeId, entityId, pushed, rest);
      TrackedByMemberStep(rows, typeId, entityId, pushed, rest);
      rest + LastTracking(rows, typeId, entityId, pushed)
  }

  // ---------------------------------------------------------------------------
  // markAsPushed / markAsDeployed: UPDATE ... SET flag = TRUE WHERE workspace = w
  // ---------------------------------------------------------------------------

  datatype Flag = Pushed | Deployed

  function WithFlag(row: Row, flag: Flag): Row {
    match flag
    case Pushed => row.(pushed := true)
    case Deployed => row.(deployed := true)
  }

  /** The table after the bulk update: rows of `w` get the flag, every other row is kept. */
  function MarkRows(rows: seq<Row>, w: WorkspaceId, flag: Flag): (r: seq<Row>)
    ensures |r| == |rows|
    ensures forall i :: 0 <= i < |rows| ==>
      r[i] == if rows[i].workspace == w then WithFlag(rows[i], flag) else rows[i]
  {
    if rows == [] then []
    else [if rows[0].workspace == w then WithFlag(rows[0], flag) else rows[0]] + MarkRows(rows[1..], w, flag)
  }

  /** Every row of `w` carries the flag afterwards; every row keeps its workspace, entity and revision. */
  lemma MarkRowsFlagsWorkspace(rows: seq<Row>, w: WorkspaceId, flag: Flag)
    ensures forall x :: x in MarkRows(rows, w, flag) && x.workspace == w ==>
      if flag == Pushed then x.pushed else x.deployed
    ensures forall i :: 0 <= i < |rows| ==>
      var x := MarkRows(rows, w, flag)[i];
      x.workspace == rows[i].workspace && x.typeId == rows[i].typeId
        && x.entityId == rows[i].entityId && x.revisionId == rows[i].revisionId
  {
    var r := MarkRows(rows, w, flag);
    forall x | x in r && x.workspace == w
      ensures if flag == Pushed then x.pushed else x.deployed
    {
      var i :| 0 <= i < |r| && r[i] == x;
    }
  }

  /** Running the update twice leaves the same table as running it once. */
  lemma MarkRowsIdempotent(rows: seq<Row>, w: WorkspaceId, flag: Flag)
    ensures MarkRows(MarkRows(rows, w, flag), w, flag) == MarkRows(rows, w, flag)
  {
  }

  /** After markAsPushed(w), the unpushed rows of `w` are gone from the query. */
  lemma NothingUnpushedAfterMark(rows: seq<Row>, w: WorkspaceId)
    ensures Select(MarkRows(rows, w, Pushed), w, Some(false)) == []
  {
  }

  // ---------------------------------------------------------------------------
  // The revision difference of a local replication
  // ---------------------------------------------------------------------------

  /** The row is about revision `rev` of type `ty` and belongs to `s` or `t`. */
  predicate InPair(row: Row, ty: EntityTypeId, rev: RevisionId, s: WorkspaceId, t: WorkspaceId) {
    row.typeId == ty && row.revisionId == rev && (row.workspace == s || row.workspace == t)
  }

  /** `count(workspace)` of the group of one revision id: rows, not distinct workspaces. */
  function PairCount(rows: seq<Row>, ty: EntityTypeId, rev: RevisionId, s: WorkspaceId, t: WorkspaceId): nat {
    if rows == [] then 0
    else (if InPair(rows[0], ty, rev, s, t) then 1 else 0) + PairCount(rows[1..], ty, rev, s, t)
  }

  lemma {:induction false} PairCountAppend(a: seq<Row>, b: seq<Row>, ty: EntityTypeId, rev: RevisionId, s: WorkspaceId, t: WorkspaceId)
    ensures PairCount(a + b, ty, rev, s, t) == PairCount(a, ty, rev, s, t) + PairCount(b, ty, rev, s, t)
  {
    if a == [] {
      assert a + b == b;
    } else {
      assert (a + b)[0] == a[0];
      assert (a + b)[1..] == a[1..] + b;
      PairCountAppend(a[1..], b, ty, rev, s, t);
    }
  }

  lemma {:induction false} PairCountPositive(rows: seq<Row>, i: int, ty: EntityTypeId, rev: RevisionId, s: WorkspaceId, t: WorkspaceId)
    requires 0 <= i < |rows| && InPair(rows[i], ty, rev, s, t)
    ensures PairCount(rows, ty, rev, s, t) >= 1
  {
    if i > 0 {
      PairCountPositive(rows[1..], i - 1, ty, rev, s, t);
    }
  }

  lemma {:induction false} PairCountMarkRows(rows: seq<Row>, w: WorkspaceId, flag: Flag, ty: EntityTypeId, rev: RevisionId, s: WorkspaceId, t: WorkspaceId)
    ensures PairCount(MarkRows(rows, w, flag), ty, rev, s, t) == PairCount(rows, ty, rev, s, t)
  {
    if rows != [] {
      assert MarkRows(rows, w, flag)[1..] == MarkRows(rows[1..], w, flag);
      PairCountMarkRows(rows[1..], w, flag, ty, rev, s, t);
    }
  }

  /** The diff query: revision ids of type `ty` held by fewer than 2 rows among `s` and `t`. */
  function RevisionDifference(rows: seq<Row>, ty: EntityTypeId, s: WorkspaceId, t: WorkspaceId): set<RevisionId> {
    set i | 0 <= i < |rows| && InPair(rows[i], ty, rows[i].revisionId, s, t)
            && PairCount(rows, ty, rows[i].revisionId, s, t) < 2 :: rows[i].revisionId
  }

  /** A row of `s` has its revision in the diff exactly when its revision has fewer than 2 rows. */
  lemma DifferenceOfSourceRows(rows: seq<Row>, ty: EntityTypeId, s: WorkspaceId, t: WorkspaceId)
    ensures forall j :: 0 <= j < |rows| && rows[j].workspace == s && rows[j].typeId == ty ==>
      (rows[j].revisionId in RevisionDifference(rows, ty, s, t) <==> PairCount(rows, ty, rows[j].revisionId, s, t) < 2)
  {
    forall j | 0 <= j < |rows| && rows[j].workspace == s && rows[j].typeId == ty
      ensures rows[j].revisionId in RevisionDifference(rows, ty, s, t)
              <==> PairCount(rows, ty, rows[j].revisionId, s, t) < 2
    {
      if PairCount(rows, ty, rows[j].revisionId, s, t) < 2 {
        assert InPair(rows[j], ty, rows[j].revisionId, s, t);
      }
    }
  }

  /** The association query: revision-table positions below `n` of type `ty`, a revision in `diff` and workspace `s`. */
  function AssociationIds(rows: seq<Row>, ty: EntityTypeId, diff: set<RevisionId>, s: WorkspaceId, n: nat): (ids: seq<nat>)
    requires n <= |rows|
    ensures forall k :: 0 <= k < |ids| ==> ids[k] < n
    ensures forall j :: j in ids <==>
      0 <= j < n && rows[j].typeId == ty && rows[j].revisionId in diff && rows[j].workspace == s
  {
    if n == 0 then []
    else
      var ids := AssociationIds(rows, ty, diff, s, n - 1);
      var j := n - 1;
      if rows[j].typeId == ty && rows[j].revisionId in diff && rows[j].workspace == s then ids + [j] else ids
  }

  /** What one entity type contributes: nothing when its diff is empty, its association rows otherwise. */
  function AssociationsFor(rows: seq<Row>, ty: EntityTypeId, s: WorkspaceId, t: WorkspaceId): seq<nat> {
    var diff := RevisionDifference(rows, ty, s, t);
    if diff == {} then [] else AssociationIds(rows, ty, diff, s, |rows|)
  }

  /** The association rows a replication materializes, type by type in the order given. */
  function Selection(rows: seq<Row>, types: seq<EntityTypeId>, s: WorkspaceId, t: WorkspaceId): (sel: seq<nat>)
    ensures forall k :: 0 <= k < |sel| ==> sel[k] < |rows|
    ensures forall j :: j in sel <==>
      && 0 <= j < |rows| && rows[j].workspace == s && rows[j].typeId in types
      && PairCount(rows, rows[j].typeId, rows[j].revisionId, s, t) < 2
  {
    if types == [] then []
    else
      var n := |types| - 1;
      var ty := types[n];
      DifferenceOfSourceRows(rows, ty, s, t);
      assert forall x :: x in types <==> x in types[..n] || x == ty;
      Selection(rows, types[..n], s, t) + AssociationsFor(rows, ty, s, t)
  }

  /** The new association revisions: each selected row re-pointed to `t`, in selection order. */
  function Repointed(rows: seq<Row>, sel: seq<nat>, t: WorkspaceId): (r: seq<Row>)
    requires forall k :: 0 <= k < |sel| ==> sel[k] < |rows|
    ensures |r| == |sel|
    ensures forall k :: 0 <= k < |sel| ==> r[k] == rows[sel[k]].(workspace := t)
  {
    if sel == [] then []
    else Repointed(rows, sel[..|sel| - 1], t) + [rows[sel[|sel| - 1]].(workspace := t)]
  }

  lemma HeadIsMember<T>(sq: seq<T>)
    requires sq != []
    ensures sq[0] in sq
  {
  }

  /** The revision table after re-pointing the selection and marking the source deployed. */
  function AfterLocalReplication(rows: seq<Row>, types: seq<EntityTypeId>, s: WorkspaceId, t: WorkspaceId): seq<Row> {
    MarkRows(rows + Repointed(rows, Selection(rows, types, s, t), t), s, Deployed)
  }

  /** In that table every row of `s` of a replicated type shares its revision with another row of `s` or `t`. */
  lemma {:induction false} SourceRowShared(rows: seq<Row>, types: seq<EntityTypeId>, s: WorkspaceId, t: WorkspaceId, j: int)
    requires var after := AfterLocalReplication(rows, types, s, t);
      0 <= j < |after| && after[j].workspace == s && after[j].typeId in types
    ensures var after := AfterLocalReplication(rows, types, s, t);
      PairCount(after, after[j].typeId, after[j].revisionId, s, t) >= 2
  {
    var sel := Selection(rows, types, s, t);
    var added := Repointed(rows, sel, t);
    var grown := rows + added;
    var after := MarkRows(grown, s, Deployed);
    var ty, rev := after[j].typeId, after[j].revisionId;
    PairCountMarkRows(grown, s, Deployed, ty, rev, s, t);
    PairCountAppend(rows, added, ty, rev, s, t);
    if j < |rows| {
      assert grown[j] == rows[j];
      PairCountPositive(rows, j, ty, rev, s, t);
      if PairCount(rows, ty, rev, s, t) < 2 {
        assert j in sel;
        var k :| 0 <= k < |sel| && sel[k] == j;
        assert InPair(added[k], ty, rev, s, t);
        PairCountPositive(added, k, ty, rev, s, t);
      }
    } else {
      var k := j - |rows|;
      assert grown[j] == added[k] == rows[sel[k]].(workspace := t);
      PairCountPositive(rows, sel[k], ty, rev, s, t);
      PairCountPositive(added, k, ty, rev, s, t);
    }
  }

  /**
   * After a replication to a non-default target has re-pointed the selection
   * and marked the source deployed, the same replication selects nothing.
   */
  lemma SecondSelectionEmpty(rows: seq<Row>, types: seq<EntityTypeId>, s: WorkspaceId, t: WorkspaceId)
    ensures Selection(AfterLocalReplication(rows, types, s, t), types, s, t) == []
  {
    var after := AfterLocalReplication(rows, types, s, t);
    forall j | 0 <= j < |after| && after[j].workspace == s && after[j].typeId in types
      ensures PairCount(after, after[j].typeId, after[j].revisionId, s, t) >= 2
    {
      SourceRowShared(rows, types, s, t, j);
    }
    var again := Selection(after, types, s, t);
    if again != [] {
      HeadIsMember(again);
      assert false;
    }
  }

  // ---------------------------------------------------------------------------
  // Saving a new association revision (the entity storage's save)
  // ---------------------------------------------------------------------------

  predicate SameEntity(a: Row, b: Row) {
    a.typeId == b.typeId && a.entityId == b.entityId
  }

  function ReplaceEntityRow(base: seq<Row>, row: Row): (r: seq<Row>)
    ensures |r| == |base|
    ensures forall i :: 0 <= i < |base| ==> r[i] == if SameEntity(base[i], row) then row else base[i]
  {
    if base == [] then []
    else [if SameEntity(base[0], row) then row else base[0]] + ReplaceEntityRow(base[1..], row)
  }

  /** The base table once `row` is the latest revision of its entity. */
  function PutLatest(base: seq<Row>, row: Row): (r: seq<Row>)
    ensures forall x :: x in r <==> x == row || (x in base && !SameEntity(x, row))
  {
    if exists i :: 0 <= i < |base| && SameEntity(base[i], row) then
      var r := ReplaceEntityRow(base, row);
      assert forall x :: x in base && !SameEntity(x, row) ==> x in r by {
        forall x | x in base && !SameEntity(x, row) ensures x in r {
          var i :| 0 <= i < |base| && base[i] == x;
          assert r[i] == x;
        }
      }
      r
    else base + [row]
  }

  /** The base table after saving each of `rows` in turn. */
  function PutAll(base: seq<Row>, rows: seq<Row>): seq<Row> {
    if rows == [] then base else PutLatest(PutAll(base, rows[..|rows| - 1]), rows[|rows| - 1])
  }

  /** The base table holds at most one row per entity. */
  predicate OneRowPerEntity(base: seq<Row>) {
    forall i, j :: 0 <= i < j < |base| ==> !SameEntity(base[i], base[j])
  }

  /** Marking rows keeps the base table at one row per entity. */
  lemma MarkRowsKeepsOneRowPerEntity(rows: seq<Row>, w: WorkspaceId, flag: Flag)
    requires OneRowPerEntity(rows)
    ensures OneRowPerEntity(MarkRows(rows, w, flag))
  {
  }

  /** Saving a revision keeps the base table at one row per entity, and that row is the saved one. */
  lemma PutLatestKeepsOneRowPerEntity(base: seq<Row>, row: Row)
    requires OneRowPerEntity(base)
    ensures OneRowPerEntity(PutLatest(base, row))
    ensures forall x :: x in PutLatest(base, row) && SameEntity(x, row) ==> x == row
  {
    var r := PutLatest(base, row);
    if !exists i :: 0 <= i < |base| && SameEntity(base[i], row) {
      assert r == base + [row];
      forall i, j | 0 <= i < j < |r| ensures !SameEntity(r[i], r[j]) {
        if j == |base| {
          assert r[i] == base[i];
        }
      }
    }
  }

  /** Saving each of `rows` in turn keeps the base table at one row per entity. */
  lemma {:induction false} PutAllKeepsOneRowPerEntity(base: seq<Row>, rows: seq<Row>)
    requires OneRowPerEntity(base)
    ensures OneRowPerEntity(PutAll(base, rows))
  {
    if rows != [] {
      PutAllKeepsOneRowPerEntity(base, rows[..|rows| - 1]);
      PutLatestKeepsOneRowPerEntity(PutAll(base, rows[..|rows| - 1]), rows[|rows| - 1]);
    }
  }
}

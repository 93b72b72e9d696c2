/**
 * The workspace association storage: a base table with one row per tracked
 * entity (its latest tracked revision) and a revision table with a row for
 * every tracked revision. Both are updated in place.
 */
module AssociationStorage {
  import opened Wrappers
  import opened Associations

  /** What `getTrackedEntities` returns: grouped by type and revision, or a flat list of records. */
  datatype TrackedEntities = ByType(groups: Grouped) | Records(items: seq<TrackedRevision>)

  /** The table a tracked-entities query reads: the revision table for all revisions, else the base table. */
  function TrackedTable(base: seq<Row>, revisions: seq<Row>, allRevisions: bool): seq<Row> {
    if allRevisions then revisions else base
  }

  /** The result a tracked-entities query promises, stated over a table snapshot. */
  function TrackedResult(table: seq<Row>, w: WorkspaceId, pushed: Option<bool>, group: bool): TrackedEntities {
    if group then ByType(Group(Select(table, w, pushed))) else Records(Flatten(Select(table, w, pushed)))
  }

  class AssociationStore {
    var base: seq<Row>
    var revisions: seq<Row>

    /** There is one association per content entity, so the base table holds one row per entity. */
    ghost predicate Valid()
      reads this
    {
      OneRowPerEntity(base)
    }

    constructor (base: seq<Row>, revisions: seq<Row>)
      requires OneRowPerEntity(base)
      ensures Valid()
      ensures this.base == base && this.revisions == revisions
    {
      this.base := base;
      this.revisions := revisions;
    }

    /** Sets `pushed` on every row of `w` in both tables; nothing else changes. */
    method MarkAsPushed(w: WorkspaceId)
      requires Valid()
      modifies this
      ensures Valid()
      ensures base == MarkRows(old(base), w, Pushed)
      ensures revisions == MarkRows(old(revisions), w, Pushed)
    {
      MarkRowsKeepsOneRowPerEntity(base, w, Pushed);
      base := MarkRows(base, w, Pushed);
      revisions := MarkRows(revisions, w, Pushed);
    }

    /** Sets `deployed` on every row of `w` in both tables; nothing else changes. */
    method MarkAsDeployed(w: WorkspaceId)
      requires Valid()
      modifies this
      ensures Valid()
      ensures base == MarkRows(old(base), w, Deployed)
      ensures revisions == MarkRows(old(revisions), w, Deployed)
    {
      MarkRowsKeepsOneRowPerEntity(base, w, Deployed);
      base := MarkRows(base, w, Deployed);
      revisions := MarkRows(revisions, w, Deployed);
    }

    /**
     * The rows of workspace `w` (and, when `pushed` is given, with that
     * pushed flag), read from the revision table when `allRevisions` holds
     * and from the base table otherwise, grouped or listed one per row.
     */
    method GetTrackedEntities(w: WorkspaceId, allRevisions: bool, pushed: Option<bool>, group: bool)
      returns (tracked: TrackedEntities)
      ensures tracked == TrackedResult(TrackedTable(base, revisions, allRevisions), w, pushed, group)
    {
      var table := if allRevisions then revisions else base;
      var records := Select(table, w, pushed);
      var grouped: Grouped := map[];
      var listed: seq<TrackedRevision> := [];
      for i := 0 to |records|
        invariant group ==> grouped == Group(records[..i])
        invariant !group ==> listed == Flatten(records[..i])
      {
        var record := records[i];
        assert records[..i + 1][..i] == records[..i];
        if group {
          assert Group(records[..i + 1]) == Put(Group(records[..i]), record);
          grouped := Put(grouped, record);
        } else {
          assert Flatten(records[..i + 1]) == Flatten(records[..i]) + [AsTracked(record)];
          listed := listed + [AsTracked(record)];
        }
      }
      assert records[..|records|] == records;
      tracked := if group then ByType(grouped) else Records(listed);
    }

    /** The workspaces whose base-table row is about the entity, in table order. */
    function IsEntityTracked(typeId: EntityTypeId, entityId: EntityId, pushed: Option<bool>): (ids: seq<WorkspaceId>)
      reads this
      ensures forall w :: w in ids <==>
        exists i :: 0 <= i < |base| && TracksEntity(base[i], typeId, entityId, pushed) && base[i].workspace == w
    {
      TrackedBy(base, typeId, entityId, pushed)
    }

    /** Saving a new association revision: appended to the revision table, and made the entity's base row. */
    method SaveAssociationRevision(row: Row)
      requires Valid()
      modifies this
      ensures Valid()
      ensures revisions == old(revisions) + [row]
      ensures base == PutLatest(old(base), row)
    {
      revisions := revisions + [row];
      PutLatestKeepsOneRowPerEntity(base, row);
      base := PutLatest(base, row);
    }
  }

  /** A query on behalf of the rows of `w` finds only rows of `w` with the requested pushed flag. */
  lemma TrackedRecordsComeFromWorkspace(table: seq<Row>, w: WorkspaceId, pushed: Option<bool>)
    ensures forall i :: 0 <= i < |Select(table, w, pushed)| ==>
      var row := Select(table, w, pushed)[i];
      row in table && row.workspace == w && (pushed.Some? ==> row.pushed == pushed.value)
  {
    var sel := Select(table, w, pushed);
    forall i | 0 <= i < |sel| ensures sel[i] in sel {}
  }

  /** Once `w` is marked pushed, neither table yields an unpushed row of `w`, grouped or flat. */
  lemma NothingUnpushedAfterMarkAsPushed(base: seq<Row>, revisions: seq<Row>, w: WorkspaceId, allRevisions: bool)
    ensures TrackedResult(TrackedTable(MarkRows(base, w, Pushed), MarkRows(revisions, w, Pushed), allRevisions), w, Some(false), true)
      == ByType(map[])
    ensures TrackedResult(TrackedTable(MarkRows(base, w, Pushed), MarkRows(revisions, w, Pushed), allRevisions), w, Some(false), false)
      == Records([])
  {
    NothingUnpushedAfterMark(base, w);
    NothingUnpushedAfterMark(revisions, w);
  }
}

/**
 * The deleted workspace constraint on a workspace's id: the id may not be
 * used while association rows, in any revision, still reference it.
 */
module DeletedWorkspace {
  import opened Wrappers
  import opened Associations
  import opened AssociationStorage

  /** The validated id field: the id of the workspace it belongs to, and whether that workspace is new. */
  datatype IdField = IdField(workspaceId: WorkspaceId, workspaceIsNew: bool)

  /** The single violation the constraint adds. */
  datatype Violation = StillReferenced

  /** Some association revision belongs to workspace `id`. */
  predicate Referenced(revisions: seq<Row>, id: WorkspaceId) {
    exists i :: 0 <= i < |revisions| && revisions[i].workspace == id
  }

  /** The number of association revisions of workspace `id` (rows, not distinct workspaces). */
  function ReferenceCount(revisions: seq<Row>, id: WorkspaceId): (n: nat)
    ensures n <= |revisions|
    ensures n > 0 <==> Referenced(revisions, id)
  {
    if revisions == [] then 0
    else
      var rest := ReferenceCount(revisions[1..], id);
      assert Referenced(revisions[1..], id) ==> Referenced(revisions, id) by {
        if Referenced(revisions[1..], id) {
          var i :| 0 <= i < |revisions[1..]| && revisions[1..][i].workspace == id;
          assert revisions[i + 1].workspace == id;
        }
      }
      assert Referenced(revisions, id) && revisions[0].workspace != id ==> Referenced(revisions[1..], id) by {
        if Referenced(revisions, id) && revisions[0].workspace != id {
          var i :| 0 <= i < |revisions| && revisions[i].workspace == id;
          assert revisions[1..][i - 1].workspace == id;
        }
      }
      (if revisions[0].workspace == id then 1 else 0) + rest
  }

  /**
   * The violations validating the id field adds: none for a missing value,
   * one whenever some association revision references the id, whether or
   * not the workspace is new.
   */
  function Validate(store: AssociationStore, value: Option<IdField>): (violations: seq<Violation>)
    reads store
    ensures |violations| <= 1
    ensures violations != [] <==> value.Some? && Referenced(store.revisions, value.value.workspaceId)
  {
    if value.None? then []
    else if ReferenceCount(store.revisions, value.value.workspaceId) > 0 then [StillReferenced]
    else []
  }

  /** The rule as intended: only a NEW workspace may not take an id still referenced by association revisions. */
  function ValidateNewOnly(store: AssociationStore, value: Option<IdField>): (violations: seq<Violation>)
    reads store
    ensures |violations| <= 1
    ensures violations != [] <==>
      value.Some? && value.value.workspaceIsNew && Referenced(store.revisions, value.value.workspaceId)
  {
    if value.None? || !value.value.workspaceIsNew then []
    else if ReferenceCount(store.revisions, value.value.workspaceId) > 0 then [StillReferenced]
    else []
  }

  /**
   * An existing workspace that has tracked any revision fails its own id
   * check when it is saved again, under the rule as written but not under
   * the intended one.
   */
  lemma ExistingWorkspaceRejected(store: AssociationStore, row: Row)
    requires row in store.revisions
    ensures Validate(store, Some(IdField(row.workspace, false))) == [StillReferenced]
    ensures ValidateNewOnly(store, Some(IdField(row.workspace, false))) == []
  {
    var i :| 0 <= i < |store.revisions| && store.revisions[i] == row;
    assert Referenced(store.revisions, row.workspace);
  }

  /** A new workspace may reuse an id exactly when no association revision references it any more. */
  lemma NewWorkspaceReuse(store: AssociationStore, id: WorkspaceId)
    ensures ValidateNewOnly(store, Some(IdField(id, true))) == [] <==> !Referenced(store.revisions, id)
    ensures ValidateNewOnly(store, Some(IdField(id, true))) == Validate(store, Some(IdField(id, true)))
  {
  }
}

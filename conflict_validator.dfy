/**
 * The entity workspace conflict constraint: an entity that other
 * workspaces track cannot be saved in the active workspace unless the
 * active workspace tracks it too.
 */
module EntityWorkspaceConflict {
  import opened Wrappers
  import opened Associations
  import opened AssociationStorage
  import opened Content

  const MESSAGE := "The content is being edited in the %label workspace. As a result, your changes cannot be saved."

  /** A violation: the constraint's message and the value of its `%label` placeholder. */
  datatype Violation = Violation(message: string, workspaceLabel: string)

  /** Some base-table row is about the entity. */
  predicate Tracked(base: seq<Row>, e: ContentEntity) {
    exists i :: 0 <= i < |base| && TracksEntity(base[i], e.typeId, e.id, None)
  }

  /** Some base-table row about the entity belongs to workspace `w`. */
  predicate TrackedIn(base: seq<Row>, e: ContentEntity, w: WorkspaceId) {
    exists i :: 0 <= i < |base| && TracksEntity(base[i], e.typeId, e.id, None) && base[i].workspace == w
  }

  /**
   * The violations validating `entity` adds, with `activeId` the active
   * workspace: one naming the workspace of the entity's first base-table
   * row, when the entity exists, is not new, is tracked, and is not tracked
   * by the active workspace; none otherwise. The store is only read.
   */
  function Validate(store: AssociationStore, entity: Option<ContentEntity>, activeId: WorkspaceId,
                    labelOf: WorkspaceId -> string): (violations: seq<Violation>)
    reads store
    ensures |violations| <= 1
    ensures violations != [] <==>
      entity.Some? && !entity.value.isNew && Tracked(store.base, entity.value) && !TrackedIn(store.base, entity.value, activeId)
    ensures violations != [] ==> exists i ::
      FirstTrackingRow(store.base, i, entity.value.typeId, entity.value.id, None)
      && violations[0] == Violation(MESSAGE, labelOf(store.base[i].workspace))
  {
    if entity.Some? && !entity.value.isNew then
      var workspaceIds := store.IsEntityTracked(entity.value.typeId, entity.value.id, None);
      if workspaceIds != [] && activeId !in workspaceIds then
        [Violation(MESSAGE, labelOf(workspaceIds[0]))]
      else
        assert workspaceIds == [] ==> !Tracked(store.base, entity.value) by {
          if Tracked(store.base, entity.value) {
            var i :| 0 <= i < |store.base| && TracksEntity(store.base[i], entity.value.typeId, entity.value.id, None);
            assert store.base[i].workspace in workspaceIds;
          }
        }
        []
    else
      []
  }

  /** The active workspace may always save an entity it tracks, whoever else tracks it. */
  lemma ActiveTrackerMaySave(store: AssociationStore, e: ContentEntity, activeId: WorkspaceId,
                             labelOf: WorkspaceId -> string)
    requires TrackedIn(store.base, e, activeId)
    ensures Validate(store, Some(e), activeId, labelOf) == []
  {
  }

  /** An existing entity some workspace tracks can be saved only in a workspace that tracks it. */
  lemma SingleOwner(store: AssociationStore, e: ContentEntity, owner: WorkspaceId, activeId: WorkspaceId,
                    labelOf: WorkspaceId -> string)
    requires !e.isNew && TrackedIn(store.base, e, owner)
    ensures Validate(store, Some(e), activeId, labelOf) == [] <==> activeId == owner || TrackedIn(store.base, e, activeId)
  {
  }
}

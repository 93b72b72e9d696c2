/**
 * The entity type and form hooks: every entity type that can belong to
 * workspaces gets the workspace conflict constraint, and the edit form of
 * an entity tracked in another workspace is locked.
 */
module EntityTypeInfo {
  import opened Wrappers
  import opened Php
  import opened Associations
  import opened AssociationStorage
  import opened Content
  import EntityWorkspaceConflict

  const CONFLICT_CONSTRAINT := "EntityWorkspaceConflict"
  const FORM_MESSAGE := "The content is being edited in the %label workspace."

  /** An entity type definition, whose constraints the build hook adds to. */
  class EntityType {
    const id: EntityTypeId
    var constraints: set<string>

    constructor (id: EntityTypeId, constraints: set<string>)
      ensures this.id == id && this.constraints == constraints
    {
      this.id := id;
      this.constraints := constraints;
    }
  }

  /** Adds the conflict constraint to exactly the entity types that can belong to workspaces. */
  method EntityTypeBuild(entityTypes: seq<EntityType>, canBelong: EntityTypeId -> bool)
    modifies set et | et in entityTypes
    ensures forall et :: et in entityTypes ==>
      et.constraints == if canBelong(et.id) then old(et.constraints) + {CONFLICT_CONSTRAINT} else old(et.constraints)
  {
    for i := 0 to |entityTypes|
      invariant forall et :: et in entityTypes ==>
        et.constraints == if canBelong(et.id) && et in entityTypes[..i]
          then old(et.constraints) + {CONFLICT_CONSTRAINT} else old(et.constraints)
    {
      var entityType := entityTypes[i];
      if canBelong(entityType.id) {
        entityType.constraints := entityType.constraints + {CONFLICT_CONSTRAINT};
      }
      assert forall et :: et in entityTypes[..i + 1] <==> et in entityTypes[..i] || et == entityType;
    }
    assert entityTypes[..|entityTypes|] == entityTypes;
  }

  /**
   * The lock an entity form gets: for an entity form of an eligible type
   * whose first base-table row belongs to a workspace other than the active
   * one, the message naming that workspace's label.
   */
  function FormLock(store: AssociationStore, formEntity: Option<ContentEntity>, canBelong: EntityTypeId -> bool,
                    activeId: WorkspaceId, labelOf: WorkspaceId -> string): (lock: Option<Markup>)
    reads store
    ensures lock.Some? <==> (formEntity.Some? && canBelong(formEntity.value.typeId)
      && exists i :: (FirstTrackingRow(store.base, i, formEntity.value.typeId, formEntity.value.id, None)
                      && store.base[i].workspace != activeId))
    ensures lock.Some? ==> exists i :: (FirstTrackingRow(store.base, i, formEntity.value.typeId, formEntity.value.id, None)
      && lock.value == Markup(FORM_MESSAGE, labelOf(store.base[i].workspace)))
  {
    if formEntity.Some? && canBelong(formEntity.value.typeId) then
      var e := formEntity.value;
      var workspaceIds := store.IsEntityTracked(e.typeId, e.id, None);
      FirstRowIsHead(store.base, e);
      if workspaceIds != [] && workspaceIds[0] != activeId then
        Some(Markup(FORM_MESSAGE, labelOf(workspaceIds[0])))
      else
        None
    else
      None
  }

  /** The first tracked workspace is the workspace of the first row about the entity, if there is one. */
  lemma FirstRowIsHead(base: seq<Row>, e: ContentEntity)
    ensures var ids := TrackedBy(base, e.typeId, e.id, None);
      (ids != [] <==> exists i :: FirstTrackingRow(base, i, e.typeId, e.id, None))
      && forall i :: FirstTrackingRow(base, i, e.typeId, e.id, None) ==> ids != [] && ids[0] == base[i].workspace
  {
    var ids := TrackedBy(base, e.typeId, e.id, None);
    forall i | FirstTrackingRow(base, i, e.typeId, e.id, None)
      ensures ids != [] && ids[0] == base[i].workspace
    {
      assert base[i].workspace in ids;
      var j :| FirstTrackingRow(base, j, e.typeId, e.id, None) && base[j].workspace == ids[0];
      FirstTrackingRowUnique(base, i, j, e.typeId, e.id, None);
    }
  }

  /** The same lock decided with PHP's loose `!=` between the first tracked id and the active id. */
  function FormLockAsWritten(store: AssociationStore, formEntity: Option<ContentEntity>, canBelong: EntityTypeId -> bool,
                             activeId: WorkspaceId, labelOf: WorkspaceId -> string): (lock: Option<Markup>)
    reads store
    ensures lock.Some? <==> (formEntity.Some? && canBelong(formEntity.value.typeId)
      && exists i :: (FirstTrackingRow(store.base, i, formEntity.value.typeId, formEntity.value.id, None)
                      && !LooseEquals(store.base[i].workspace, activeId)))
    ensures lock.Some? ==> exists i :: (FirstTrackingRow(store.base, i, formEntity.value.typeId, formEntity.value.id, None)
      && lock.value == Markup(FORM_MESSAGE, labelOf(store.base[i].workspace)))
    ensures lock.Some? ==> FormLock(store, formEntity, canBelong, activeId, labelOf) == lock
  {
    if formEntity.Some? && canBelong(formEntity.value.typeId) then
      var e := formEntity.value;
      var workspaceIds := store.IsEntityTracked(e.typeId, e.id, None);
      FirstRowIsHead(store.base, e);
      if workspaceIds != [] && !LooseEquals(workspaceIds[0], activeId) then
        Some(Markup(FORM_MESSAGE, labelOf(workspaceIds[0])))
      else
        None
    else
      None
  }

  /**
   * With loose comparison, an entity tracked only by workspace "1" can be
   * edited in workspace "01": the form is not locked, yet saving is refused.
   */
  lemma LooseComparisonUnlocksForm(store: AssociationStore, e: ContentEntity, canBelong: EntityTypeId -> bool,
                                   labelOf: WorkspaceId -> string, revisionId: RevisionId)
    requires !e.isNew && canBelong(e.typeId)
    requires store.base == [Row("1", e.typeId, e.id, revisionId, false, false)]
    ensures FormLockAsWritten(store, Some(e), canBelong, "01", labelOf) == None
    ensures FormLock(store, Some(e), canBelong, "01", labelOf) == Some(Markup(FORM_MESSAGE, labelOf("1")))
    ensures EntityWorkspaceConflict.Validate(store, Some(e), "01", labelOf) != []
  {
    assert TrackedBy(store.base, e.typeId, e.id, None) == ["1"];
    LeadingZeroLooselyEqual("1");
    assert "0" + "1" == "01";
    assert FirstTrackingRow(store.base, 0, e.typeId, e.id, None);
    assert "1" != "01";
    assert EntityWorkspaceConflict.Tracked(store.base, e);
  }

  /**
   * While the base table holds one row per entity, the form of an existing
   * entity of an eligible type is locked exactly when saving it would be refused.
   */
  lemma FormLockAgreesWithValidator(store: AssociationStore, e: ContentEntity, canBelong: EntityTypeId -> bool,
                                    activeId: WorkspaceId, labelOf: WorkspaceId -> string)
    requires store.Valid() && !e.isNew && canBelong(e.typeId)
    ensures FormLock(store, Some(e), canBelong, activeId, labelOf).Some?
        <==> EntityWorkspaceConflict.Validate(store, Some(e), activeId, labelOf) != []
  {
    var base := store.base;
    if EntityWorkspaceConflict.Tracked(base, e) {
      var i :| 0 <= i < |base| && TracksEntity(base[i], e.typeId, e.id, None);
      forall j | 0 <= j < |base| && TracksEntity(base[j], e.typeId, e.id, None) ensures j == i {
        assert SameEntity(base[i], base[j]);
      }
      assert FirstTrackingRow(base, i, e.typeId, e.id, None);
    }
  }

  /** A form's render state: its markup and its access flag. */
  class Form {
    var markup: Option<Markup>
    var access: Option<bool>

    constructor (markup: Option<Markup>, access: Option<bool>)
      ensures this.markup == markup && this.access == access
    {
      this.markup := markup;
      this.access := access;
    }
  }

  /** Locks the form when it is the form of an entity being edited in another workspace; otherwise leaves it. */
  method FormAlter(form: Form, formEntity: Option<ContentEntity>, store: AssociationStore,
                   canBelong: EntityTypeId -> bool, activeId: WorkspaceId, labelOf: WorkspaceId -> string)
    modifies form
    ensures var lock := FormLock(store, formEntity, canBelong, activeId, labelOf);
      if lock.Some? then form.markup == lock && form.access == Some(false)
      else form.markup == old(form.markup) && form.access == old(form.access)
  {
    var lock := FormLock(store, formEntity, canBelong, activeId, labelOf);
    if lock.Some? {
      form.markup := lock;
      form.access := Some(false);
    }
  }
}

/**
 * Content entities as the handlers see them: a store of content revisions
 * keyed by entity type and revision id, each with its default-revision and
 * replicating flags, and a log of the saves made through it.
 */
module Content {
  import opened Wrappers
  import opened Associations

  datatype RevisionKey = RevisionKey(typeId: EntityTypeId, revisionId: RevisionId)

  datatype ContentRevision = ContentRevision(entityId: EntityId, isDefault: bool, replicating: bool)

  /** A content entity handed to a validator, a form or an access check. */
  datatype ContentEntity = ContentEntity(typeId: EntityTypeId, id: EntityId, isNew: bool)

  /** One save: the revision saved and the workspace active while it was saved. */
  datatype SaveEvent = SaveEvent(key: RevisionKey, activeWorkspace: Option<WorkspaceId>)

  /** The content revision an association row is about. */
  function KeyOf(row: Row): RevisionKey {
    RevisionKey(row.typeId, row.revisionId)
  }

  /** Flagged as replicating and made the default revision; nothing else about it changes. */
  function Promote(c: ContentRevision): (p: ContentRevision)
    ensures p.isDefault && p.replicating && p.entityId == c.entityId
  {
    c.(isDefault := true, replicating := true)
  }

  /** The keys of the saved revisions in a stretch of the save log. */
  function SavedKeys(events: seq<SaveEvent>): set<RevisionKey> {
    set e | e in events :: e.key
  }

  /**
   * `after` is `before` with every present revision whose key is in `keys`
   * promoted, and nothing else changed.
   */
  ghost predicate PromotedExactly(before: map<RevisionKey, ContentRevision>, after: map<RevisionKey, ContentRevision>,
                                  keys: set<RevisionKey>)
  {
    after.Keys == before.Keys
    && forall k :: k in before ==> after[k] == if k in keys then Promote(before[k]) else before[k]
  }

  class ContentStore {
    var revisions: map<RevisionKey, ContentRevision>
    var saveLog: seq<SaveEvent>

    constructor (revisions: map<RevisionKey, ContentRevision>)
      ensures this.revisions == revisions && saveLog == []
    {
      this.revisions := revisions;
      saveLog := [];
    }

    /** Saves a revision while `active` is the active workspace. */
    method Save(key: RevisionKey, revision: ContentRevision, active: Option<WorkspaceId>)
      modifies this
      ensures revisions == old(revisions)[key := revision]
      ensures saveLog == old(saveLog) + [SaveEvent(key, active)]
    {
      revisions := revisions[key := revision];
      saveLog := saveLog + [SaveEvent(key, active)];
    }
  }
}

/**
 * The null repository handler, the fallback for a missing plugin: every
 * operation does nothing and every query is empty.
 */
module NullHandler {
  import opened Associations
  import opened AssociationStorage
  import opened Content
  import opened RepositoryHandlers

  function CheckConflictsOnTarget(): seq<RevisionKey> {
    []
  }

  function TargetRevisionDifference(): Grouped {
    map[]
  }

  function SourceRevisionDifference(): Grouped {
    map[]
  }

  method Push(store: AssociationStore, content: ContentStore)
    ensures unchanged(store) && unchanged(content)
  {
  }

  method Pull(store: AssociationStore, content: ContentStore)
    ensures unchanged(store) && unchanged(content)
  {
  }

  /** Every query of the null handler is empty, and it reports the fallback definition's label and description. */
  lemma QueriesAreEmpty(labelOf: WorkspaceId -> string)
    ensures CheckConflictsOnTarget() == [] && TargetRevisionDifference() == map[] && SourceRevisionDifference() == map[]
    ensures Label(Null, labelOf) == "Missing repository handler"
    ensures Description(Null) == "Provides a fallback for missing repository handlers. Do not use."
  {
  }
}

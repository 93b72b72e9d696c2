/**
 * The workspace manager's part in this model: the id of the default
 * workspace and the mutable active-workspace slot the handlers switch.
 */
module WorkspaceManager {
  import opened Wrappers
  import opened Associations

  /** The id of the default (live) workspace. */
  const DEFAULT_WORKSPACE: WorkspaceId := "live"

  predicate IsDefaultId(id: WorkspaceId) {
    id == DEFAULT_WORKSPACE
  }

  /** The active workspace's id, falling back to the default workspace when none is active. */
  function ActiveOrDefault(active: Option<WorkspaceId>): (id: WorkspaceId)
    ensures active.Some? ==> id == active.value
    ensures active.None? ==> IsDefaultId(id)
  {
    active.GetOr(DEFAULT_WORKSPACE)
  }

  class ActiveWorkspace {
    var active: Option<WorkspaceId>
    /** Every workspace ever activated through this slot, in order. */
    ghost var history: seq<Option<WorkspaceId>>

    constructor (active: Option<WorkspaceId>)
      ensures this.active == active && history == []
    {
      this.active := active;
      history := [];
    }

    method SetActiveWorkspace(w: Option<WorkspaceId>)
      modifies this
      ensures active == w
      ensures history == old(history) + [w]
    {
      active := w;
      history := history + [w];
    }
  }
}

/**
 * The local-workspace repository handler: replication between two
 * workspaces of the same site. The revisions the source holds and the target
 * does not are either re-pointed to the target (a non-default target) or
 * promoted to default revisions (the default target).
 */
module LocalWorkspaceHandler {
  import opened Wrappers
  import opened Associations
  import opened AssociationStorage
  import opened Content
  import opened WorkspaceManager

  /** A loaded content revision, flagged and waiting to be saved. */
  datatype QueuedSave = QueuedSave(key: RevisionKey, revision: ContentRevision)

  /** The content revisions the selected association rows are about. */
  function SelectedKeys(rows: seq<Row>, sel: seq<nat>): set<RevisionKey>
    requires forall k :: 0 <= k < |sel| ==> sel[k] < |rows|
  {
    set k | 0 <= k < |sel| :: KeyOf(rows[sel[k]])
  }

  /** Every selected association row is about a content revision that can be loaded. */
  predicate AllLoadable(rows: seq<Row>, sel: seq<nat>, revisions: map<RevisionKey, ContentRevision>)
    requires forall k :: 0 <= k < |sel| ==> sel[k] < |rows|
  {
    forall k :: 0 <= k < |sel| ==> KeyOf(rows[sel[k]]) in revisions
  }

  /**
   * The diff phase: the association revisions to materialize, entity type by
   * entity type. The types are the keys of the supported entity types, so
   * no type is listed twice.
   */
  method CollectAssociationIds(store: AssociationStore, types: seq<EntityTypeId>, s: WorkspaceId, t: WorkspaceId)
    returns (ids: seq<nat>)
    requires forall i, j :: 0 <= i < j < |types| ==> types[i] != types[j]
    ensures ids == Selection(store.revisions, types, s, t)
  {
    ids := [];
    for i := 0 to |types|
      invariant ids == Selection(store.revisions, types[..i], s, t)
    {
      assert types[..i + 1][..i] == types[..i];
      var difference := RevisionDifference(store.revisions, types[i], s, t);
      if difference != {} {
        ids := ids + AssociationIds(store.revisions, types[i], difference, s, |store.revisions|);
      }
    }
    assert types[..|types|] == types;
  }

  /** Re-pointing one more selected row appends its copy. */
  lemma RepointedStep(rows: seq<Row>, sel: seq<nat>, k: nat, t: WorkspaceId)
    requires k < |sel| && forall j :: 0 <= j < |sel| ==> sel[j] < |rows|
    ensures Repointed(rows, sel[..k + 1], t) == Repointed(rows, sel[..k], t) + [rows[sel[k]].(workspace := t)]
  {
    assert sel[..k + 1][..k] == sel[..k];
  }

  /** Non-default target: each selected association is saved as a new revision in the target workspace. */
  method RepointAssociations(store: AssociationStore, sel: seq<nat>, t: WorkspaceId)
    requires store.Valid() && forall k :: 0 <= k < |sel| ==> sel[k] < |store.revisions|
    modifies store
    ensures store.Valid()
    ensures store.revisions == old(store.revisions) + Repointed(old(store.revisions), sel, t)
    ensures store.base == PutAll(old(store.base), Repointed(old(store.revisions), sel, t))
  {
    ghost var rows := store.revisions;
    for k := 0 to |sel|
      invariant store.revisions == rows + Repointed(rows, sel[..k], t)
      invariant store.base == PutAll(old(store.base), Repointed(rows, sel[..k], t))
    {
      ghost var done := Repointed(rows, sel[..k], t);
      assert store.revisions[sel[k]] == rows[sel[k]];
      var association := store.revisions[sel[k]];
      PutAllKeepsOneRowPerEntity(old(store.base), done);
      store.SaveAssociationRevision(association.(workspace := t));
      RepointedStep(rows, sel, k, t);
    }
    assert sel[..|sel|] == sel;
    PutAllKeepsOneRowPerEntity(old(store.base), Repointed(rows, sel, t));
  }

  /**
   * Default target: loads the content revision of each selected
   * association and queues it promoted. Loading stops at the first revision
   * that does not exist, where the program ends with a fatal error.
   */
  method QueuePromotions(store: AssociationStore, content: ContentStore, sel: seq<nat>)
    returns (loaded: bool, queue: seq<QueuedSave>)
    requires forall k :: 0 <= k < |sel| ==> sel[k] < |store.revisions|
    ensures loaded <==> AllLoadable(store.revisions, sel, content.revisions)
    ensures loaded ==> |queue| == |sel| && (forall k :: 0 <= k < |sel| ==>
      var key := KeyOf(store.revisions[sel[k]]);
      key in content.revisions && queue[k] == QueuedSave(key, Promote(content.revisions[key])))
  {
    queue := [];
    for k := 0 to |sel|
      invariant |queue| == k
      invariant forall m :: 0 <= m < k ==>
        var key := KeyOf(store.revisions[sel[m]]);
        key in content.revisions && queue[m] == QueuedSave(key, Promote(content.revisions[key]))
    {
      var key := KeyOf(store.revisions[sel[k]]);
      if key !in content.revisions {
        return false, queue;
      }
      queue := queue + [QueuedSave(key, Promote(content.revisions[key]))];
    }
    loaded := true;
  }

  /** The saves a promotion makes: one per selected association row, in order, all under `active`. */
  function PromotionSaves(rows: seq<Row>, sel: seq<nat>, active: Option<WorkspaceId>): (events: seq<SaveEvent>)
    requires forall k :: 0 <= k < |sel| ==> sel[k] < |rows|
    ensures |events| == |sel|
    ensures forall k :: 0 <= k < |sel| ==> events[k] == SaveEvent(KeyOf(rows[sel[k]]), active)
    ensures SavedKeys(events) == SelectedKeys(rows, sel)
  {
    var events := seq(|sel|, k requires 0 <= k < |sel| => SaveEvent(KeyOf(rows[sel[k]]), active));
    assert forall x :: x in SavedKeys(events) ==> x in SelectedKeys(rows, sel);
    assert forall k :: 0 <= k < |sel| ==> events[k] in events;
    events
  }

  /** Saves the queued revisions in order, with `active` as the active workspace. */
  method SaveQueued(content: ContentStore, queue: seq<QueuedSave>, active: Option<WorkspaceId>)
    requires forall k :: 0 <= k < |queue| ==>
      queue[k].key in content.revisions && queue[k].revision == Promote(content.revisions[queue[k].key])
    modifies content
    ensures PromotedExactly(old(content.revisions), content.revisions, set k | 0 <= k < |queue| :: queue[k].key)
    ensures |content.saveLog| == |old(content.saveLog)| + |queue|
    ensures content.saveLog[..|old(content.saveLog)|] == old(content.saveLog)
    ensures forall k :: 0 <= k < |queue| ==> content.saveLog[|old(content.saveLog)| + k] == SaveEvent(queue[k].key, active)
  {
    ghost var before := content.revisions;
    ghost var log0 := content.saveLog;
    for k := 0 to |queue|
      invariant PromotedExactly(before, content.revisions, set m | 0 <= m < k :: queue[m].key)
      invariant |content.saveLog| == |log0| + k && content.saveLog[..|log0|] == log0
      invariant forall m :: 0 <= m < k ==> content.saveLog[|log0| + m] == SaveEvent(queue[m].key, active)
    {
      content.Save(queue[k].key, queue[k].revision, active);
      assert (set m | 0 <= m < k + 1 :: queue[m].key) == (set m | 0 <= m < k :: queue[m].key) + {queue[k].key};
    }
  }

  /**
   * Default target: queues the selected content revisions promoted and,
   * when there is at least one, activates the target and saves them.
   */
  method PromoteSelected(store: AssociationStore, content: ContentStore, ctx: ActiveWorkspace,
                         sel: seq<nat>, t: WorkspaceId)
    returns (loaded: bool)
    requires forall k :: 0 <= k < |sel| ==> sel[k] < |store.revisions|
    modifies content, ctx
    ensures loaded <==> AllLoadable(store.revisions, sel, old(content.revisions))
    ensures !loaded ==> (content.revisions == old(content.revisions) && content.saveLog == old(content.saveLog)
      && ctx.active == old(ctx.active) && ctx.history == old(ctx.history))
    ensures loaded ==> (
      && PromotedExactly(old(content.revisions), content.revisions, SelectedKeys(store.revisions, sel))
      && content.saveLog == old(content.saveLog) + PromotionSaves(store.revisions, sel, Some(t))
      && ctx.history == old(ctx.history) + (if sel == [] then [] else [Some(t)]))
  {
    var queue;
    loaded, queue := QueuePromotions(store, content, sel);
    if loaded {
      assert (set k | 0 <= k < |queue| :: queue[k].key) == SelectedKeys(store.revisions, sel);
      if queue != [] {
        ctx.SetActiveWorkspace(Some(t));
        SaveQueued(content, queue, ctx.active);
      }
      assert content.saveLog == old(content.saveLog) + PromotionSaves(store.revisions, sel, Some(t));
    }
  }

  /**
   * Replication into a non-default target: with the source active, the
   * association revisions the diff selects are re-pointed to `t`; then the
   * workspace active before is restored and the source's associations are
   * marked deployed.
   */
  method ReplicateToWorkspace(store: AssociationStore, ctx: ActiveWorkspace, types: seq<EntityTypeId>,
                              s: WorkspaceId, t: WorkspaceId)
    requires store.Valid()
    requires forall i, j :: 0 <= i < j < |types| ==> types[i] != types[j]
    modifies store, ctx
    ensures store.Valid()
    ensures store.revisions == AfterLocalReplication(old(store.revisions), types, s, t)
    ensures store.base == MarkRows(PutAll(old(store.base),
      Repointed(old(store.revisions), Selection(old(store.revisions), types, s, t), t)), s, Deployed)
    ensures ctx.active == old(ctx.active) && ctx.history == old(ctx.history) + [Some(s), old(ctx.active)]
  {
    var currentActive := ctx.active;
    ctx.SetActiveWorkspace(Some(s));
    var sel := CollectAssociationIds(store, types, s, t);
    RepointAssociations(store, sel, t);
    ctx.SetActiveWorkspace(currentActive);
    store.MarkAsDeployed(s);
  }

  /**
   * Replication into the default target: with the source active, the
   * content revisions the diff selects are promoted and saved under `t`. If
   * all of them loaded, the workspace active before is restored and the
   * source's associations are marked deployed; otherwise the procedure
   * stops with the source active and nothing else changed.
   */
  method ReplicateToDefault(store: AssociationStore, content: ContentStore, ctx: ActiveWorkspace,
                            types: seq<EntityTypeId>, s: WorkspaceId, t: WorkspaceId)
    returns (ok: bool)
    requires store.Valid()
    requires forall i, j :: 0 <= i < j < |types| ==> types[i] != types[j]
    modifies store, content, ctx
    ensures store.Valid()
    ensures ok <==> AllLoadable(old(store.revisions), Selection(old(store.revisions), types, s, t), old(content.revisions))
    ensures ok ==> ctx.active == old(ctx.active)
    ensures !ok ==> (ctx.active == Some(s) && ctx.history == old(ctx.history) + [Some(s)]
      && store.base == old(store.base) && store.revisions == old(store.revisions)
      && content.revisions == old(content.revisions) && content.saveLog == old(content.saveLog))
    ensures ok ==> (
      var sel := Selection(old(store.revisions), types, s, t);
      && store.revisions == MarkRows(old(store.revisions), s, Deployed)
      && store.base == MarkRows(old(store.base), s, Deployed)
      && PromotedExactly(old(content.revisions), content.revisions, SelectedKeys(old(store.revisions), sel))
      && content.saveLog == old(content.saveLog) + PromotionSaves(old(store.revisions), sel, Some(t))
      && ctx.history == old(ctx.history) + [Some(s)] + (if sel == [] then [] else [Some(t)]) + [old(ctx.active)])
  {
    var currentActive := ctx.active;
    ctx.SetActiveWorkspace(Some(s));
    var sel := CollectAssociationIds(store, types, s, t);
    ok := PromoteSelected(store, content, ctx, sel, t);
    if ok {
      ctx.SetActiveWorkspace(currentActive);
      store.MarkAsDeployed(s);
    }
  }

  /**
   * Replicates the source workspace `s` into the target workspace `t`, for
   * the supported entity types `types`, each listed once. On return `ok` says whether the
   * procedure ran to its end; it does not when the default target is asked
   * to promote a content revision that cannot be loaded.
   */
  method Replicate(store: AssociationStore, content: ContentStore, ctx: ActiveWorkspace,
                   types: seq<EntityTypeId>, s: WorkspaceId, t: WorkspaceId)
    returns (ok: bool)
    requires store.Valid()
    requires forall i, j :: 0 <= i < j < |types| ==> types[i] != types[j]
    modifies store, content, ctx
    ensures store.Valid()
    ensures ok <==> (!IsDefaultId(t)
      || AllLoadable(old(store.revisions), Selection(old(store.revisions), types, s, t), old(content.revisions)))
    ensures ok ==> ctx.active == old(ctx.active)
    ensures !ok ==> (ctx.active == Some(s) && ctx.history == old(ctx.history) + [Some(s)]
      && store.base == old(store.base) && store.revisions == old(store.revisions)
      && content.revisions == old(content.revisions) && content.saveLog == old(content.saveLog))
    ensures ok && !IsDefaultId(t) ==> (
      && store.revisions == AfterLocalReplication(old(store.revisions), types, s, t)
      && store.base == MarkRows(PutAll(old(store.base),
           Repointed(old(store.revisions), Selection(old(store.revisions), types, s, t), t)), s, Deployed)
      && content.revisions == old(content.revisions) && content.saveLog == old(content.saveLog)
      && ctx.history == old(ctx.history) + [Some(s), old(ctx.active)])
    ensures ok && IsDefaultId(t) ==> (
      var sel := Selection(old(store.revisions), types, s, t);
      && store.revisions == MarkRows(old(store.revisions), s, Deployed)
      && store.base == MarkRows(old(store.base), s, Deployed)
      && PromotedExactly(old(content.revisions), content.revisions, SelectedKeys(old(store.revisions), sel))
      && content.saveLog == old(content.saveLog) + PromotionSaves(old(store.revisions), sel, Some(t))
      && ctx.history == old(ctx.history) + [Some(s)] + (if sel == [] then [] else [Some(t)]) + [old(ctx.active)])
  {
    if IsDefaultId(t) {
      ok := ReplicateToDefault(store, content, ctx, types, s, t);
    } else {
      ReplicateToWorkspace(store, ctx, types, s, t);
      ok := true;
    }
  }
}

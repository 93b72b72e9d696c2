/**
 * The live repository handler: pushing a workspace to the default
 * workspace promotes each of its unpushed revisions to the default revision,
 * then marks the workspace's association rows pushed.
 */
module LiveHandler {
  import opened Wrappers
  import opened Associations
  import opened AssociationStorage
  import opened Content
  import opened WorkspaceManager

  /** The content revisions named by a grouped difference. */
  function DiffKeys(diff: Grouped): set<RevisionKey> {
    set t, rev | t in diff && rev in diff[t] :: RevisionKey(t, rev)
  }

  /** There is never a conflict on the live target, so this is always empty. */
  function CheckConflictsOnTarget(): (conflicts: seq<RevisionKey>)
    ensures |conflicts| == 0
  {
    []
  }

  /** The source's latest tracked revisions that have not been pushed, grouped by type. */
  method SourceRevisionDifference(store: AssociationStore, source: WorkspaceId) returns (diff: Grouped)
    ensures diff == Group(Select(store.base, source, Some(false)))
  {
    var tracked := store.GetTrackedEntities(source, false, Some(false), true);
    diff := tracked.groups;
  }

  /** A content revision lies in the source difference iff an unpushed base row of the source is about it. */
  lemma DiffKeysOfSource(base: seq<Row>, source: WorkspaceId)
    ensures forall k :: k in DiffKeys(Group(Select(base, source, Some(false)))) <==>
      exists i :: 0 <= i < |base| && base[i].workspace == source && !base[i].pushed && KeyOf(base[i]) == k
  {
    var records := Select(base, source, Some(false));
    GroupKeys(records);
    forall k | k in DiffKeys(Group(records))
      ensures exists i :: 0 <= i < |base| && base[i].workspace == source && !base[i].pushed && KeyOf(base[i]) == k
    {
      var j :| 0 <= j < |records| && records[j].typeId == k.typeId && records[j].revisionId == k.revisionId;
      assert records[j] in records;
      var i :| 0 <= i < |base| && base[i] == records[j];
    }
    forall i | 0 <= i < |base| && base[i].workspace == source && !base[i].pushed
      ensures KeyOf(base[i]) in DiffKeys(Group(records))
    {
      assert base[i] in records;
      var j :| 0 <= j < |records| && records[j] == base[i];
    }
  }

  lemma SavedKeysAppend(events: seq<SaveEvent>, e: SaveEvent)
    ensures SavedKeys(events + [e]) == SavedKeys(events) + {e.key}
  {
    assert forall x :: x in events + [e] <==> x in events || x == e;
  }

  /** Moving one pending key to the done ones adds it to the done keys that have a revision, if it has one. */
  lemma DoneKeysStep(keys: set<RevisionKey>, pending: set<RevisionKey>, key: RevisionKey, present: set<RevisionKey>)
    requires pending <= keys && key in pending
    ensures key !in (keys - pending) * present
    ensures (keys - (pending - {key})) == (keys - pending) + {key}
    ensures (keys - (pending - {key})) * present
      == (keys - pending) * present + (if key in present then {key} else {})
  {
  }

  /** No revision is saved twice in a stretch of the save log: each save's key is new to the saves before it. */
  predicate SavedOnce(events: seq<SaveEvent>) {
    events == []
    || (SavedOnce(events[..|events| - 1]) && events[|events| - 1].key !in SavedKeys(events[..|events| - 1]))
  }

  lemma SavedOnceAppend(events: seq<SaveEvent>, e: SaveEvent)
    requires SavedOnce(events) && e.key !in SavedKeys(events)
    ensures SavedOnce(events + [e])
  {
    assert (events + [e])[..|events|] == events;
  }

  /** When no revision is saved twice, there are as many saves as saved keys. */
  lemma {:induction false} SavedOnceCount(events: seq<SaveEvent>)
    requires SavedOnce(events)
    ensures |SavedKeys(events)| == |events|
  {
    if events != [] {
      var n := |events| - 1;
      SavedOnceCount(events[..n]);
      assert events == events[..n] + [events[n]];
      SavedKeysAppend(events[..n], events[n]);
    }
  }

  /**
   * The save log has grown from `log0` by one save under `active` of each
   * key in `done`, and of nothing else.
   */
  ghost predicate SavedEach(log0: seq<SaveEvent>, log: seq<SaveEvent>, done: set<RevisionKey>, active: Option<WorkspaceId>) {
    && |log0| <= |log|
    && log[..|log0|] == log0
    && SavedKeys(log[|log0|..]) == done
    && SavedOnce(log[|log0|..])
    && forall e :: e in log[|log0|..] ==> e.activeWorkspace == active
  }

  lemma SavedEachStep(log0: seq<SaveEvent>, log: seq<SaveEvent>, done: set<RevisionKey>, key: RevisionKey,
                      active: Option<WorkspaceId>)
    requires SavedEach(log0, log, done, active) && key !in done
    ensures SavedEach(log0, log + [SaveEvent(key, active)], done + {key}, active)
  {
    var e := SaveEvent(key, active);
    assert (log + [e])[|log0|..] == log[|log0|..] + [e];
    assert (log + [e])[..|log0|] == log[..|log0|];
    SavedKeysAppend(log[|log0|..], e);
    SavedOnceAppend(log[|log0|..], e);
  }

  /**
   * Loads, promotes and saves each content revision in `keys` that exists,
   * with `active` as the active workspace; keys with no revision are skipped.
   */
  method PromoteRevisions(content: ContentStore, keys: set<RevisionKey>, active: Option<WorkspaceId>)
    modifies content
    ensures PromotedExactly(old(content.revisions), content.revisions, keys)
    ensures |old(content.saveLog)| <= |content.saveLog|
    ensures content.saveLog[..|old(content.saveLog)|] == old(content.saveLog)
    ensures SavedKeys(content.saveLog[|old(content.saveLog)|..]) == keys * old(content.revisions).Keys
    ensures SavedOnce(content.saveLog[|old(content.saveLog)|..])
    ensures forall e :: e in content.saveLog[|old(content.saveLog)|..] ==> e.activeWorkspace == active
  {
    ghost var before := content.revisions;
    ghost var log0 := content.saveLog;
    var pending := keys;
    while pending != {}
      invariant pending <= keys
      invariant PromotedExactly(before, content.revisions, keys - pending)
      invariant SavedEach(log0, content.saveLog, (keys - pending) * before.Keys, active)
      decreases pending
    {
      var key :| key in pending;
      DoneKeysStep(keys, pending, key, before.Keys);
      if key in content.revisions {
        ghost var prior := content.saveLog;
        content.Save(key, Promote(content.revisions[key]), active);
        SavedEachStep(log0, prior, (keys - pending) * before.Keys, key, active);
      }
      pending := pending - {key};
    }
    assert keys - pending == keys;
  }

  /**
   * Push: every content revision in the source difference that can be
   * loaded is promoted and saved under the current active workspace, and
   * every association row of the source is then marked pushed.
   */
  method Push(store: AssociationStore, content: ContentStore, ctx: ActiveWorkspace, source: WorkspaceId)
    returns (conflict: bool)
    requires store.Valid()
    modifies store, content
    ensures store.Valid()
    ensures !conflict
    ensures var keys := DiffKeys(Group(Select(old(store.base), source, Some(false))));
      && PromotedExactly(old(content.revisions), content.revisions, keys)
      && |old(content.saveLog)| <= |content.saveLog|
      && content.saveLog[..|old(content.saveLog)|] == old(content.saveLog)
      && SavedKeys(content.saveLog[|old(content.saveLog)|..]) == keys * old(content.revisions).Keys
      && SavedOnce(content.saveLog[|old(content.saveLog)|..])
      && |content.saveLog| == |old(content.saveLog)| + |keys * old(content.revisions).Keys|
      && forall e :: e in content.saveLog[|old(content.saveLog)|..] ==> e.activeWorkspace == ctx.active
    ensures store.base == MarkRows(old(store.base), source, Pushed)
    ensures store.revisions == MarkRows(old(store.revisions), source, Pushed)
  {
    conflict := CheckConflictsOnTarget() != [];
    if !conflict {
      var diff := SourceRevisionDifference(store, source);
      PromoteRevisions(content, DiffKeys(diff), ctx.active);
      SavedOnceCount(content.saveLog[|old(content.saveLog)|..]);
      store.MarkAsPushed(source);
    }
  }

  /** Pulling from live is not implemented: it changes nothing. */
  method Pull(store: AssociationStore, content: ContentStore)
    ensures unchanged(store) && unchanged(content)
  {
  }

  /** A second push with no saves in between finds an empty difference and promotes nothing. */
  lemma SecondPushPromotesNothing(base: seq<Row>, source: WorkspaceId)
    ensures DiffKeys(Group(Select(MarkRows(base, source, Pushed), source, Some(false)))) == {}
  {
    NothingUnpushedAfterMark(base, source);
  }

  /** The latest revision of each entity given: revision id -> entity id (the entity query). */
  type LatestRevisions = (EntityTypeId, set<EntityId>) -> map<RevisionId, EntityId>

  /** `array_diff_key($latest, $tracked)`: the latest revisions not among the tracked ones. */
  function MissingRevisions(latest: map<RevisionId, EntityId>, tracked: map<RevisionId, EntityId>)
    : (r: map<RevisionId, EntityId>)
    ensures forall rev :: rev in r <==> rev in latest && rev !in tracked
    ensures forall rev :: rev in r ==> r[rev] == latest[rev]
  {
    map rev | rev in latest && rev !in tracked :: latest[rev]
  }

  /** The difference for one tracked type: what the latest revisions of its tracked entities miss. */
  function TypeDifference(tracked: Grouped, latest: LatestRevisions, t: EntityTypeId): map<RevisionId, EntityId>
    requires t in tracked
  {
    MissingRevisions(latest(t, tracked[t].Values), tracked[t])
  }

  /**
   * The target difference: for each tracked type whose entities have a
   * latest revision the source does not track, those revisions.
   */
  function TargetDifference(tracked: Grouped, latest: LatestRevisions): (r: Grouped)
    ensures forall t :: t in r ==> t in tracked && r[t] != map[]
    ensures forall t, rev :: t in r && rev in r[t] ==>
      rev !in tracked[t] && rev in latest(t, tracked[t].Values) && r[t][rev] == latest(t, tracked[t].Values)[rev]
    ensures forall t, rev :: t in tracked && rev in latest(t, tracked[t].Values) && rev !in tracked[t] ==>
      t in r && rev in r[t]
  {
    map t | t in tracked && TypeDifference(tracked, latest, t) != map[] :: TypeDifference(tracked, latest, t)
  }

  /** The revisions modified on the target since the source started tracking their entities. */
  method TargetRevisionDifference(store: AssociationStore, source: WorkspaceId, latest: LatestRevisions)
    returns (diff: Grouped)
    ensures diff == TargetDifference(Group(Select(store.base, source, None)), latest)
  {
    var tracked := store.GetTrackedEntities(source, false, None, true);
    var groups := tracked.groups;
    diff := map[];
    var pending := groups.Keys;
    while pending != {}
      invariant pending <= groups.Keys
      invariant forall t :: t in diff <==> t in groups && t !in pending && TypeDifference(groups, latest, t) != map[]
      invariant forall t :: t in diff ==> diff[t] == TypeDifference(groups, latest, t)
      decreases pending
    {
      var t :| t in pending;
      var missing := MissingRevisions(latest(t, groups[t].Values), groups[t]);
      if missing != map[] {
        diff := diff[t := missing];
      }
      pending := pending - {t};
    }
  }
}

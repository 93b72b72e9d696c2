/**
 * The workspace entity: its field rules, the repository handler its target
 * selects, its owner and creation time, and the bookkeeping of deleted
 * workspace ids that are still to be purged.
 */
module WorkspaceEntity {
  import opened Wrappers
  import opened Php
  import opened Associations
  import opened AssociationStorage
  import opened WorkspaceManager
  import opened RepositoryHandlers
  import DeletedWorkspace

  type UserId = nat

  const ID_MAX_LENGTH := 128
  const NAME_MAX_LENGTH := 128
  /** The target is a plain string field, so it gets the string field's default maximum length. */
  const TARGET_MAX_LENGTH := 255
  const DEFAULT_TARGET := "live"

  /** The characters of the id pattern's class `[a-z0-9_]`. */
  predicate IdChar(c: char) {
    'a' <= c <= 'z' || '0' <= c <= '9' || c == '_'
  }

  /**
   * The id pattern `^[a-z0-9_]*$` as PCRE matches it: `$` also matches just
   * before a newline that ends the subject, so one trailing "\n" is let through.
   */
  predicate MatchesIdPattern(id: string) {
    (forall i :: 0 <= i < |id| ==> IdChar(id[i]))
    || (0 < |id| && id[|id| - 1] == '\n' && forall i :: 0 <= i < |id| - 1 ==> IdChar(id[i]))
  }

  /** The workspace's validated fields: `id`, `label` and `target`. */
  datatype Field = IdField | NameField | TargetField

  datatype FieldViolation =
    | Required(field: Field)
    | TooLong(field: Field)
    | PatternMismatch
    | NotUnique
    | StillReferenced

  /** The violations of a required string field with a maximum length. */
  function LengthViolations(f: Field, value: string, maxLength: nat): (r: set<FieldViolation>)
    ensures r <= {Required(f), TooLong(f)}
    ensures Required(f) in r <==> value == ""
    ensures TooLong(f) in r <==> |value| > maxLength
    ensures r == {} <==> value != "" && |value| <= maxLength
  {
    (if value == "" then {Required(f)} else {}) + (if |value| > maxLength then {TooLong(f)} else {})
  }

  /**
   * The violations of the id field: required, at most 128 characters, the
   * id pattern, unique among the other workspaces, and (for a new
   * workspace) not referenced by association revisions.
   */
  function IdViolations(id: WorkspaceId, isNew: bool, otherIds: set<WorkspaceId>, store: AssociationStore)
    : (r: set<FieldViolation>)
    reads store
    ensures r <= {Required(IdField), TooLong(IdField), PatternMismatch, NotUnique, StillReferenced}
    ensures Required(IdField) in r <==> id == ""
    ensures StillReferenced in r <==> isNew && DeletedWorkspace.Referenced(store.revisions, id)
    ensures r == {} <==>
      && id != "" && |id| <= ID_MAX_LENGTH && MatchesIdPattern(id) && id !in otherIds
      && !(isNew && DeletedWorkspace.Referenced(store.revisions, id))
  {
    var idField := Some(DeletedWorkspace.IdField(id, isNew));
    LengthViolations(IdField, id, ID_MAX_LENGTH)
    + (if !MatchesIdPattern(id) then {PatternMismatch} else {})
    + (if id in otherIds then {NotUnique} else {})
    + (if DeletedWorkspace.ValidateNewOnly(store, idField) != [] then {StillReferenced} else {})
  }

  /**
   * The violations validating a workspace's fields finds: `otherIds` are
   * the ids of the other workspaces, and the id check of a new workspace
   * also consults the association revisions through the deleted workspace
   * constraint (in its corrected form, which spares existing workspaces).
   */
  function Violations(id: WorkspaceId, isNew: bool, name: string, target: string, otherIds: set<WorkspaceId>,
                      store: AssociationStore): (r: set<FieldViolation>)
    reads store
    ensures Required(IdField) in r <==> id == ""
    ensures Required(TargetField) in r <==> target == ""
    ensures TooLong(TargetField) in r <==> |target| > TARGET_MAX_LENGTH
    ensures StillReferenced in r <==> isNew && DeletedWorkspace.Referenced(store.revisions, id)
    ensures r == {} <==>
      && id != "" && |id| <= ID_MAX_LENGTH && MatchesIdPattern(id) && id !in otherIds
      && !(isNew && DeletedWorkspace.Referenced(store.revisions, id))
      && name != "" && |name| <= NAME_MAX_LENGTH && target != "" && |target| <= TARGET_MAX_LENGTH
  {
    IdViolations(id, isNew, otherIds, store)
    + LengthViolations(NameField, name, NAME_MAX_LENGTH)
    + LengthViolations(TargetField, target, TARGET_MAX_LENGTH)
  }

  /** An id made of lower-case letters, digits and underscores followed by one newline passes the pattern. */
  lemma TrailingNewlinePasses(id: WorkspaceId)
    requires forall i :: 0 <= i < |id| ==> IdChar(id[i])
    ensures MatchesIdPattern(id + "\n")
    ensures !MatchesIdPattern(id + "\n\n")
  {
    var once := id + "\n";
    assert forall i :: 0 <= i < |once| - 1 ==> once[i] == id[i];
    var twice := id + "\n\n";
    assert twice[|twice| - 2] == '\n' && !IdChar('\n');
  }

  /** An id with a character outside `[a-z0-9_]` anywhere but at a final newline fails the pattern. */
  lemma ForeignCharacterFails(id: WorkspaceId, i: int)
    requires 0 <= i < |id| - 1 && !IdChar(id[i])
    ensures !MatchesIdPattern(id)
  {
  }

  /** "a0_$()+-/" fails the pattern: `$` is not in the class. */
  lemma PunctuationIdFails()
    ensures !MatchesIdPattern("a0_$()+-/")
  {
    ForeignCharacterFails("a0_$()+-/", 3);
  }

  class Workspace {
    const id: WorkspaceId
    var name: string
    var uid: UserId
    var created: int
    var target: string

    /** A new workspace: owned by the current user, created now, targeting live. */
    constructor (id: WorkspaceId, name: string, currentUser: UserId, now: int)
      ensures this.id == id && this.name == name && uid == currentUser && created == now
      ensures target == DEFAULT_TARGET
    {
      this.id := id;
      this.name := name;
      uid := currentUser;
      created := now;
      target := DEFAULT_TARGET;
    }

    function IsDefaultWorkspace(): (b: bool)
      ensures b <==> id == "live"
    {
      IsDefaultId(id)
    }

    /** The handler configuration: present iff the target is truthy and not the empty value. */
    function RepositoryHandlerConfig(): (config: Option<HandlerConfig>)
      reads this
      ensures config.Some? <==> target != "" && target != "0" && target != EMPTY_VALUE
      ensures config.Some? ==> config.value.source == id && config.value.target == target
    {
      if Truthy(target) && target != EMPTY_VALUE then Some(HandlerConfig(id, target)) else None
    }

    /**
     * The handler the target selects: live for "live", the local handler of
     * an existing workspace for its plugin id, and the null fallback for any
     * other truthy target; none for an empty target.
     */
    function RepositoryHandlerPlugin(workspaces: set<WorkspaceId>): (h: Option<RepositoryHandler>)
      reads this
      ensures h.Some? <==> RepositoryHandlerConfig().Some?
      ensures target == LIVE_PLUGIN_ID ==> h == Some(Live(id))
      ensures forall w :: w in workspaces && target == LocalWorkspacePluginId(w) ==> h == Some(LocalWorkspace(id, w))
      ensures h.Some? && target != LIVE_PLUGIN_ID && (forall w :: w in workspaces ==> target != LocalWorkspacePluginId(w))
        ==> h == Some(Null)
    {
      var config := RepositoryHandlerConfig();
      if config.Some? then
        LocalTargetsResolve(target, config.value, workspaces);
        Some(CreateInstance(target, config.value, workspaces))
      else
        None
    }

    method SetOwnerId(uid: UserId)
      modifies this
      ensures GetOwnerId() == uid
      ensures name == old(name) && created == old(created) && target == old(target)
    {
      this.uid := uid;
    }

    function GetOwnerId(): UserId
      reads this
    {
      uid
    }

    /** Stores the creation time cast to an integer. */
    method SetCreatedTime(created: real)
      modifies this
      ensures GetStartTime() == IntCast(created)
      ensures name == old(name) && uid == old(uid) && target == old(target)
    {
      this.created := IntCast(created);
    }

    function GetStartTime(): int
      reads this
    {
      created
    }
  }

  /** Every local-workspace plugin id of an existing workspace resolves to that workspace's handler. */
  lemma LocalTargetsResolve(pluginId: string, config: HandlerConfig, workspaces: set<WorkspaceId>)
    ensures forall w :: w in workspaces && pluginId == LocalWorkspacePluginId(w) ==>
      CreateInstance(pluginId, config, workspaces) == LocalWorkspace(config.source, w)
  {
    forall w | w in workspaces && pluginId == LocalWorkspacePluginId(w)
      ensures CreateInstance(pluginId, config, workspaces) == LocalWorkspace(config.source, w)
    {
      LocalWorkspaceRoundTrip(w, config, workspaces);
    }
  }

  /** The site's state entry listing the deleted workspaces still to be purged, id => id. */
  class DeletedWorkspaces {
    var ids: map<WorkspaceId, WorkspaceId>

    constructor (ids: map<WorkspaceId, WorkspaceId>)
      ensures this.ids == ids
    {
      this.ids := ids;
    }
  }

  /**
   * After workspaces are deleted: every deleted id except the default
   * workspace's is added to the list, and entries already listed are kept.
   */
  method PostDelete(state: DeletedWorkspaces, deleted: set<WorkspaceId>)
    modifies state
    ensures state.ids.Keys == old(state.ids).Keys + (deleted - {DEFAULT_WORKSPACE})
    ensures forall k :: k in old(state.ids) ==> state.ids[k] == old(state.ids)[k]
    ensures forall k :: k in state.ids && k !in old(state.ids) ==> state.ids[k] == k
  {
    var stored := state.ids;
    var purged := deleted - {DEFAULT_WORKSPACE};
    stored := ArrayUnion(stored, map id | id in purged :: id);
    state.ids := stored;
  }
}

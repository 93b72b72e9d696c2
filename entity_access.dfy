/**
 * Workspace-based access: the bypass rule that opens every operation on
 * content in the active workspace, and the per-workspace permissions.
 */
module EntityAccess {
  import opened Wrappers
  import opened Php
  import opened Associations
  import opened Content
  import opened WorkspaceManager
  import opened WorkspaceEntity

  /** An access result as the access system combines them. */
  datatype AccessResult = Allowed | Neutral | Forbidden

  /** `orIf`: forbidden wins, then allowed, else neutral. */
  function OrIf(a: AccessResult, b: AccessResult): AccessResult {
    if a == Forbidden || b == Forbidden then Forbidden
    else if a == Allowed || b == Allowed then Allowed
    else Neutral
  }

  /** `andIf`: forbidden wins, allowed only when both are, else neutral. */
  function AndIf(a: AccessResult, b: AccessResult): AccessResult {
    if a == Forbidden || b == Forbidden then Forbidden
    else if a == Allowed && b == Allowed then Allowed
    else Neutral
  }

  function AllowedIf(condition: bool): AccessResult {
    if condition then Allowed else Neutral
  }

  datatype Account = Account(id: UserId, permissions: set<string>)

  function AllowedIfHasPermission(account: Account, permission: string): AccessResult {
    AllowedIf(permission in account.permissions)
  }

  const OWN_WORKSPACE_BYPASS := "bypass entity access own workspace"
  const WORKSPACE_TYPE_ID := "workspace"

  datatype PermissionKind = ViewKind | UpdateKind | DeleteKind | BypassKind

  function KeyPrefix(kind: PermissionKind): string {
    match kind
    case ViewKind => "view_workspace_"
    case UpdateKind => "update_workspace_"
    case DeleteKind => "delete_workspace_"
    case BypassKind => "bypass_entity_access_workspace_"
  }

  /** A per-workspace permission, named by its kind and its workspace. */
  datatype PermissionKey = PermissionKey(kind: PermissionKind, workspace: WorkspaceId)

  /** The permission's machine name: the kind's prefix followed by the workspace id. */
  function PermissionName(key: PermissionKey): string {
    KeyPrefix(key.kind) + key.workspace
  }

  function BypassPermission(id: WorkspaceId): string {
    PermissionName(PermissionKey(BypassKind, id))
  }

  /**
   * Different permissions have different machine names: the prefixes start
   * with different letters, so a name determines its kind and then its
   * workspace. A map keyed by permissions is therefore a map keyed by names.
   */
  lemma PermissionNameInjective(a: PermissionKey, b: PermissionKey)
    ensures PermissionName(a) == PermissionName(b) ==> a == b
  {
    if PermissionName(a) == PermissionName(b) {
      var n := PermissionName(a);
      assert KeyPrefix(a.kind)[0] == n[0] == KeyPrefix(b.kind)[0];
      assert a.kind == b.kind;
      var m := |KeyPrefix(a.kind)|;
      assert a.workspace == n[m..] == b.workspace;
    }
  }

  /**
   * The bypass decision in the active workspace (the default workspace when
   * none is active): allowed by that workspace's bypass permission, or to its
   * owner holding the own-workspace bypass permission; neutral otherwise.
   */
  function BypassAccessResult(account: Account, active: Option<WorkspaceId>, ownerOf: WorkspaceId -> UserId)
    : (r: AccessResult)
    ensures r != Forbidden
    ensures r == Allowed <==>
      var w := ActiveOrDefault(active);
      BypassPermission(w) in account.permissions
      || (ownerOf(w) == account.id && OWN_WORKSPACE_BYPASS in account.permissions)
  {
    var w := ActiveOrDefault(active);
    OrIf(AllowedIfHasPermission(account, BypassPermission(w)),
         AndIf(AllowedIf(ownerOf(w) == account.id), AllowedIfHasPermission(account, OWN_WORKSPACE_BYPASS)))
  }

  /** Access to an existing entity: neutral for workspaces and for types that cannot belong to one, else the bypass decision. */
  function EntityAccess(entity: ContentEntity, account: Account, canBelong: EntityTypeId -> bool,
                        active: Option<WorkspaceId>, ownerOf: WorkspaceId -> UserId): (r: AccessResult)
    ensures entity.typeId == WORKSPACE_TYPE_ID || !canBelong(entity.typeId) ==> r == Neutral
    ensures r != Forbidden
    ensures entity.typeId != WORKSPACE_TYPE_ID && canBelong(entity.typeId) ==> r == BypassAccessResult(account, active, ownerOf)
    ensures r == Allowed ==> (entity.typeId != WORKSPACE_TYPE_ID && canBelong(entity.typeId)
      && BypassAccessResult(account, active, ownerOf) == Allowed)
  {
    if entity.typeId == WORKSPACE_TYPE_ID || !canBelong(entity.typeId) then Neutral
    else BypassAccessResult(account, active, ownerOf)
  }

  /** Access to create an entity: neutral for the workspace bundle, else the bypass decision. */
  function EntityCreateAccess(account: Account, bundle: string, active: Option<WorkspaceId>,
                              ownerOf: WorkspaceId -> UserId): (r: AccessResult)
    ensures bundle == WORKSPACE_TYPE_ID ==> r == Neutral
    ensures r != Forbidden
    ensures bundle != WORKSPACE_TYPE_ID ==> r == BypassAccessResult(account, active, ownerOf)
    ensures r == Allowed ==> bundle != WORKSPACE_TYPE_ID && BypassAccessResult(account, active, ownerOf) == Allowed
  {
    if bundle == WORKSPACE_TYPE_ID then Neutral else BypassAccessResult(account, active, ownerOf)
  }

  /** With no workspace active, the bypass rule is decided by the default workspace. */
  lemma BypassFallsBackToDefault(account: Account, ownerOf: WorkspaceId -> UserId)
    ensures BypassAccessResult(account, None, ownerOf) == BypassAccessResult(account, Some(DEFAULT_WORKSPACE), ownerOf)
  {
  }

  function Title(kind: PermissionKind): string {
    match kind
    case ViewKind => "View the %workspace workspace"
    case UpdateKind => "Edit the %workspace workspace"
    case DeleteKind => "Delete the %workspace workspace"
    case BypassKind => "Bypass content entity access in %workspace workspace"
  }

  function Explanation(kind: PermissionKind): string {
    match kind
    case ViewKind => "View the %workspace workspace and content within it"
    case UpdateKind => "Edit the %workspace workspace itself"
    case DeleteKind => "View the %workspace workspace and all content within it"
    case BypassKind => "Allow all Edit/Update/Delete permissions for all content in the %workspace workspace"
  }

  /**
   * A permission definition: its kind, the label of its workspace, and
   * whether it is flagged as restricted. Its title and description are the
   * kind's texts with the label as placeholder.
   */
  datatype Permission = Permission(kind: PermissionKind, workspaceLabel: string, restrictAccess: bool) {
    function TitleMarkup(): Markup {
      Markup(Title(kind), workspaceLabel)
    }

    function DescriptionMarkup(): Markup {
      Markup(Explanation(kind), workspaceLabel)
    }
  }

  /** One permission of a workspace labelled `name`; only the bypass permission restricts access. */
  function PermissionOf(kind: PermissionKind, name: string): (p: Permission)
    ensures p.restrictAccess <==> kind == BypassKind
    ensures p.kind == kind && p.workspaceLabel == name
  {
    Permission(kind, name, kind == BypassKind)
  }

  /**
   * The four permissions of one workspace. Their keys differ, so the `+`
   * that joins the four one-entry arrays is their plain union.
   */
  function WorkspacePermissionSet(id: WorkspaceId, name: string): map<PermissionKey, Permission> {
    map[
      PermissionKey(ViewKind, id) := PermissionOf(ViewKind, name),
      PermissionKey(UpdateKind, id) := PermissionOf(UpdateKind, name),
      PermissionKey(DeleteKind, id) := PermissionOf(DeleteKind, name),
      PermissionKey(BypassKind, id) := PermissionOf(BypassKind, name)]
  }

  /** A workspace's permission set holds each of its four permissions, and nothing about another workspace. */
  lemma PermissionSetShape(id: WorkspaceId, name: string, key: PermissionKey)
    ensures key in WorkspacePermissionSet(id, name) <==> key.workspace == id
    ensures key in WorkspacePermissionSet(id, name) ==> WorkspacePermissionSet(id, name)[key] == PermissionOf(key.kind, name)
  {
    match key.kind
    case ViewKind =>
    case UpdateKind =>
    case DeleteKind =>
    case BypassKind =>
  }

  /** Workspace `i` is the first of the list with id `id`; its permissions are the ones kept, as `+` keeps existing keys. */
  predicate FirstWithId(workspaces: seq<Workspace>, i: int, id: WorkspaceId) {
    0 <= i < |workspaces| && workspaces[i].id == id && forall j :: 0 <= j < i ==> workspaces[j].id != id
  }

  /** Adding the next workspace's permissions with `+` extends what the permission loop has built by that workspace. */
  lemma PermissionsStep(workspaces: seq<Workspace>, n: int, perms: map<PermissionKey, Permission>)
    requires 0 <= n < |workspaces|
    requires forall key :: key in perms <==> exists j :: 0 <= j < n && key.workspace == workspaces[j].id
    requires forall key :: key in perms ==> (perms[key].restrictAccess <==> key.kind == BypassKind)
    requires forall key :: key in perms ==> exists j :: (FirstWithId(workspaces, j, key.workspace)
      && perms[key] == PermissionOf(key.kind, workspaces[j].name))
    ensures var next := ArrayUnion(perms, WorkspacePermissionSet(workspaces[n].id, workspaces[n].name));
      && (forall key :: key in next <==> exists j :: 0 <= j < n + 1 && key.workspace == workspaces[j].id)
      && (forall key :: key in next ==> (next[key].restrictAccess <==> key.kind == BypassKind))
      && (forall key :: key in next ==> exists j :: (FirstWithId(workspaces, j, key.workspace)
            && next[key] == PermissionOf(key.kind, workspaces[j].name)))
  {
    var w := workspaces[n];
    forall key {
      PermissionSetShape(w.id, w.name, key);
    }
  }

  /**
   * The permissions of all workspaces: exactly the four of each, each
   * labelled with the name of the first workspace with that id, and only
   * the bypass permissions restricted.
   */
  method WorkspacePermissions(workspaces: seq<Workspace>) returns (perms: map<PermissionKey, Permission>)
    ensures forall key :: key in perms <==> exists i :: 0 <= i < |workspaces| && key.workspace == workspaces[i].id
    ensures forall key :: key in perms ==> (perms[key].restrictAccess <==> key.kind == BypassKind)
    ensures forall key :: key in perms ==> exists i :: (FirstWithId(workspaces, i, key.workspace)
      && perms[key] == PermissionOf(key.kind, workspaces[i].name))
  {
    perms := map[];
    for i := 0 to |workspaces|
      invariant forall key :: key in perms <==> exists j :: 0 <= j < i && key.workspace == workspaces[j].id
      invariant forall key :: key in perms ==> (perms[key].restrictAccess <==> key.kind == BypassKind)
      invariant forall key :: key in perms ==> exists j :: (FirstWithId(workspaces, j, key.workspace)
        && perms[key] == PermissionOf(key.kind, workspaces[j].name))
    {
      PermissionsStep(workspaces, i, perms);
      perms := ArrayUnion(perms, WorkspacePermissionSet(workspaces[i].id, workspaces[i].name));
    }
  }
}

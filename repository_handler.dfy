/**
 * The repository handler plugins a workspace can push to: the live handler,
 * one local-workspace handler per workspace of the site, and the null
 * fallback for a plugin id that names neither.
 */
module RepositoryHandlers {
  import opened Associations
  import opened WorkspaceManager

  /** The configuration a workspace hands to its handler plugin. */
  datatype HandlerConfig = HandlerConfig(source: WorkspaceId, target: string)

  datatype RepositoryHandler =
    | Live(source: WorkspaceId)
    | LocalWorkspace(source: WorkspaceId, targetId: WorkspaceId)
    | Null

  /** The value of a target field that selects no handler. */
  const EMPTY_VALUE := "_none"
  const LIVE_PLUGIN_ID := "live"
  /** Local-workspace plugin ids are this base id, a colon and the target workspace's id. */
  const LOCAL_WORKSPACE_PREFIX := "local_workspace:"

  function LocalWorkspacePluginId(id: WorkspaceId): string {
    LOCAL_WORKSPACE_PREFIX + id
  }

  /**
   * The handler the plugin manager builds for a plugin id: live, a
   * local-workspace handler for a workspace that exists, or the null
   * fallback for any id it does not know.
   */
  function CreateInstance(pluginId: string, config: HandlerConfig, workspaces: set<WorkspaceId>)
    : (h: RepositoryHandler)
    ensures h.Live? <==> pluginId == LIVE_PLUGIN_ID
    ensures h.Live? ==> h.source == config.source
    ensures h.LocalWorkspace? ==>
      h.source == config.source && h.targetId in workspaces && pluginId == LocalWorkspacePluginId(h.targetId)
    ensures h.Null? <==> pluginId != LIVE_PLUGIN_ID && forall id :: id in workspaces ==> pluginId != LocalWorkspacePluginId(id)
  {
    var n := |LOCAL_WORKSPACE_PREFIX|;
    if pluginId == LIVE_PLUGIN_ID then Live(config.source)
    else if n <= |pluginId| && pluginId[..n] == LOCAL_WORKSPACE_PREFIX && pluginId[n..] in workspaces then
      assert pluginId == LOCAL_WORKSPACE_PREFIX + pluginId[n..];
      LocalWorkspace(config.source, pluginId[n..])
    else
      assert forall id :: pluginId == LocalWorkspacePluginId(id) ==> pluginId[..n] == LOCAL_WORKSPACE_PREFIX && pluginId[n..] == id;
      Null
  }

  /** The plugin id of an existing workspace's local handler builds that handler. */
  lemma LocalWorkspaceRoundTrip(id: WorkspaceId, config: HandlerConfig, workspaces: set<WorkspaceId>)
    requires id in workspaces
    ensures CreateInstance(LocalWorkspacePluginId(id), config, workspaces) == LocalWorkspace(config.source, id)
  {
    var pluginId := LocalWorkspacePluginId(id);
    var n := |LOCAL_WORKSPACE_PREFIX|;
    assert pluginId[..n] == LOCAL_WORKSPACE_PREFIX && pluginId[n..] == id;
  }

  /** The handler's label: "Live", the target workspace's label, or the null handler's definition label. */
  function Label(h: RepositoryHandler, labelOf: WorkspaceId -> string): (text: string)
    ensures h.LocalWorkspace? ==> text == labelOf(h.targetId)
    ensures h.Null? ==> text == "Missing repository handler"
    ensures h.Live? ==> text == "Live"
  {
    match h
    case Live(_) => "Live"
    case LocalWorkspace(_, targetId) => labelOf(targetId)
    case Null => "Missing repository handler"
  }

  /** The handler's description, from its plugin definition. */
  function Description(h: RepositoryHandler): (description: string)
    ensures h.Null? ==> description == "Provides a fallback for missing repository handlers. Do not use."
    ensures h.Live? ==> description == "The default (Live) workspace."
    ensures h.LocalWorkspace? ==> description == "A workspace that is defined in the local Drupal installation."
  {
    match h
    case Live(_) => "The default (Live) workspace."
    case LocalWorkspace(_, _) => "A workspace that is defined in the local Drupal installation."
    case Null => "Provides a fallback for missing repository handlers. Do not use."
  }

  /** The null handler tells itself apart from every real handler by its description, and from live by its label. */
  lemma NullHandlerIsMarked(h: RepositoryHandler, labelOf: WorkspaceId -> string)
    ensures Description(h) == Description(Null) <==> h.Null?
    ensures h.Live? ==> Label(h, labelOf) != Label(Null, labelOf)
  {
  }
}

# Workspace module: a Dafny model

This project models the core of the Drupal `workspace` module. In that module, content is edited in named workspaces and then pushed to the default workspace ("live") or replicated into another workspace.

## What is modelled

- **The workspace-association index.** Two tables of rows `{workspace, type, entity, revision, pushed, deployed}`:
  - the *base* table holds one row per entity, its latest tracked revision;
  - the *revision* table holds every tracked revision.

  `AssociationStorage.AssociationStore` is a class over both tables. It can mark a workspace's rows pushed or deployed, save a new association revision, list tracked entities (grouped or flat), and say which workspaces track an entity. The pure row functions behind it live in `Associations`. Its invariant `Valid` is that the base table holds at most one row per entity; every operation that changes the tables requires and keeps it.
- **Content revisions.** `Content.ContentStore` is a map from (type, revision) to `{entity, isDefault, replicating}`, plus a log of saves that records which workspace was active at each save.
- **The active workspace.** `WorkspaceManager.ActiveWorkspace` is a mutable slot. A ghost history records every switch.
- **Repository handlers.** `RepositoryHandlers.RepositoryHandler` is the closed datatype `Live | LocalWorkspace | Null`, with plugin-id resolution, labels and descriptions. One module per handler holds its operations:
  - `LiveHandler`: push, pull, the source and target differences;
  - `LocalWorkspaceHandler`: replicate, which diffs, then repoints or promotes, switches and restores the active workspace, and marks the source deployed;
  - `NullHandler`: no-ops.
- **Guards.**
  - `EntityWorkspaceConflict.Validate`: an entity tracked by other workspaces cannot be saved in this one.
  - `DeletedWorkspace.Validate`: a workspace id still referenced by association revisions cannot be reused.
  - `EntityTypeInfo.FormAlter`: locks the form of an entity being edited in another workspace, comparing ids strictly (the corrected comparison, see Findings).
- **The workspace entity.** `WorkspaceEntity` holds:
  - the field rules for id, name and target;
  - the handler configuration its target selects;
  - owner and creation time;
  - the deleted-id bookkeeping of `postDelete`.
- **Access.** `EntityAccess` holds the bypass rule, the entity and create access hooks, and the four permissions generated per workspace.
- **PHP semantics** the code relies on are in `Php`:
  - truthiness;
  - array `+`, which keeps the left operand's entries;
  - the 64-bit `(int)` cast, which truncates toward zero and wraps out-of-range values;
  - loose `==` between numeric strings.

Three things are parameters rather than implementations: the workspace storage's `load()->label()` (`labelOf`), the owner lookup (`ownerOf`), and `entityTypeCanBelongToWorkspaces` (`canBelong`). The entity query for latest revisions (`LatestRevisions`) is also a parameter. The constants `DEFAULT_WORKSPACE = "live"` and `EMPTY_VALUE = "_none"` are defined by classes that are not part of this model. They are fixed here to the values those classes define.

## Model

| member | source | states |
|---|---|---|
| Associations.Select | src/WorkspaceAssociationStorage.php:33-41 | The rows returned are exactly the rows of the workspace whose pushed flag matches the filter (any flag when the filter is null), each as many times as the table holds it, and no other row |
| Associations.Flatten | src/WorkspaceAssociationStorage.php:48-54 | Flat output has one `{entity_type_id, revision_id, entity_id}` tuple per record, in record order |
| Associations.GroupKeys | src/WorkspaceAssociationStorage.php:44-47 | Grouped output has an entry type → revision for every record and no entry without a record; no type maps to an empty map |
| Associations.GroupValueIsLastWrite | src/WorkspaceAssociationStorage.php:46 | The entity stored under type → revision is that of the last record with that type and revision (later writes overwrite) |
| Associations.TrackedBy | src/WorkspaceAssociationStorage.php:63-74 | The ids returned are exactly the workspaces of base rows about the entity (pushed-filtered), each as many times as it has such rows; the first is the workspace of the first such row |
| Associations.MarkRows | src/WorkspaceAssociationStorage.php:16-27 | Row by row, rows of the workspace get the flag set, every other row and every other column is unchanged, the length is kept |
| Associations.MarkRowsFlagsWorkspace | src/WorkspaceAssociationStorage.php:16-27 | After marking, every row of the workspace carries the flag, and each row's workspace, type, entity and revision are the old ones |
| Associations.MarkRowsKeepsOneRowPerEntity | src/WorkspaceAssociationStorage.php:16-27 | Marking rows keeps the base table at one row per entity |
| Associations.MarkRowsIdempotent | src/WorkspaceAssociationStorage.php:16-27 | Marking twice gives the same table as marking once |
| Associations.NothingUnpushedAfterMark | src/WorkspaceAssociationStorage.php:16-41 | After marking pushed, selecting the workspace's unpushed rows gives nothing |
| Associations.PairCountMarkRows | src/Plugin/RepositoryHandler/LocalWorkspaceRepositoryHandler.php:147-153 | Marking rows pushed or deployed does not change the per-revision source/target row count the replication diff uses |
| Associations.DifferenceOfSourceRows | src/Plugin/RepositoryHandler/LocalWorkspaceRepositoryHandler.php:147-154 | A source revision row's revision is in the diff exactly when fewer than two rows of that type and revision belong to the source or the target |
| Associations.AssociationIds | src/Plugin/RepositoryHandler/LocalWorkspaceRepositoryHandler.php:159-166 | The association revisions selected for one type are exactly the source rows of that type whose revision is in the diff |
| Associations.Selection | src/Plugin/RepositoryHandler/LocalWorkspaceRepositoryHandler.php:141-168 | Over all supported types, a revision row is selected iff it is a source row of a listed type whose revision is in that type's diff |
| Associations.Repointed | src/Plugin/RepositoryHandler/LocalWorkspaceRepositoryHandler.php:188-195 | Each selected association becomes a copy whose workspace is the target, in selection order |
| Associations.SourceRowShared | src/Plugin/RepositoryHandler/LocalWorkspaceRepositoryHandler.php:153 | After a non-default replication, every source row of a listed type has at least two source/target rows for its revision |
| Associations.SecondSelectionEmpty | src/Plugin/RepositoryHandler/LocalWorkspaceRepositoryHandler.php:141-197 | Replicating again right after a non-default replication selects nothing |
| Associations.ReplaceEntityRow | src/Plugin/RepositoryHandler/LocalWorkspaceRepositoryHandler.php:192-194 | Saving an association revision as the default revision replaces the base row of the same entity position by position and leaves the others |
| Associations.PutLatest | src/Plugin/RepositoryHandler/LocalWorkspaceRepositoryHandler.php:192-194 | After a default-revision save the base table holds the new row and exactly the old rows about other entities |
| Associations.PutLatestKeepsOneRowPerEntity | src/Plugin/RepositoryHandler/LocalWorkspaceRepositoryHandler.php:192-194 | A default-revision save keeps the base table at one row per entity, and that entity's row is the new one |
| Associations.PutAllKeepsOneRowPerEntity | src/Plugin/RepositoryHandler/LocalWorkspaceRepositoryHandler.php:188-195 | A sequence of saves keeps the base table at one row per entity |
| AssociationStorage.AssociationStore.MarkAsPushed | src/WorkspaceAssociationStorage.php:16-27 | Both tables become the pushed-marked tables; the base table stays at one row per entity |
| AssociationStorage.AssociationStore.MarkAsDeployed | src/WorkspaceAssociationStorageInterface.php:13-18 | Both tables become the deployed-marked tables; the base table stays at one row per entity |
| AssociationStorage.AssociationStore.GetTrackedEntities | src/WorkspaceAssociationStorage.php:32-58 | The record loop returns the grouped map or the flat list of the selected rows, from the revision table iff all revisions are asked for |
| AssociationStorage.AssociationStore.SaveAssociationRevision | src/Plugin/RepositoryHandler/LocalWorkspaceRepositoryHandler.php:192-194 | A save, taken as a default-revision save, appends to the revision table and makes the row the entity's base row; the base table stays at one row per entity |
| AssociationStorage.AssociationStore.IsEntityTracked | src/WorkspaceAssociationStorage.php:63-74 | A workspace is returned iff some base row about the entity (pushed-filtered) belongs to it |
| AssociationStorage.TrackedRecordsComeFromWorkspace | src/WorkspaceAssociationStorage.php:37-41 | Every record returned belongs to the workspace, with the asked-for pushed flag |
| AssociationStorage.NothingUnpushedAfterMarkAsPushed | src/WorkspaceAssociationStorage.php:16-58 | After markAsPushed, the unpushed tracked entities of the workspace are empty, grouped or flat |
| Content.Promote | src/Plugin/RepositoryHandler/LiveRepositoryHandler.php:108-109 | A promoted revision is replicating and default and keeps its entity |
| Content.ContentStore.Save | src/Plugin/RepositoryHandler/LiveRepositoryHandler.php:110 | Saving stores the revision under its key and logs the save with the active workspace |
| WorkspaceManager.ActiveOrDefault | src/EntityAccess.php:107 | The active workspace's id, or the default workspace's when none is active |
| WorkspaceManager.ActiveWorkspace.SetActiveWorkspace | src/Plugin/RepositoryHandler/LocalWorkspaceRepositoryHandler.php:139 | The slot holds the new workspace and the switch is recorded |
| LiveHandler.SourceRevisionDifference | src/Plugin/RepositoryHandler/LiveRepositoryHandler.php:169-172 | The difference is the grouped unpushed base rows of the source |
| LiveHandler.DiffKeysOfSource | src/Plugin/RepositoryHandler/LiveRepositoryHandler.php:169-172 | A revision is in the source difference iff an unpushed base row of the source names it |
| LiveHandler.PromoteRevisions | src/Plugin/RepositoryHandler/LiveRepositoryHandler.php:102-112 | Exactly the loadable revisions of the difference become default and replicating, others are untouched; the new saves are of exactly those revisions, no revision twice, under the active workspace, after the existing log |
| LiveHandler.SavedOnceCount | src/Plugin/RepositoryHandler/LiveRepositoryHandler.php:105-111 | A stretch of saves with no revision saved twice has as many saves as saved revisions |
| LiveHandler.Push | src/Plugin/RepositoryHandler/LiveRepositoryHandler.php:97-116 | No conflict is raised; the source difference is promoted as above, with exactly one save per loadable revision; then both tables have every source row marked pushed |
| LiveHandler.CheckConflictsOnTarget | src/Plugin/RepositoryHandler/LiveRepositoryHandler.php:129-133 | The live target never reports conflicts |
| LiveHandler.Pull | src/Plugin/RepositoryHandler/LiveRepositoryHandler.php:121-124 | Nothing changes |
| LiveHandler.SecondPushPromotesNothing | src/Plugin/RepositoryHandler/LiveRepositoryHandler.php:102-115 | After a push, the next push's difference is empty |
| LiveHandler.MissingRevisions | src/Plugin/RepositoryHandler/LiveRepositoryHandler.php:158 | `array_diff_key`: the latest revisions whose id is not tracked, with their entities |
| LiveHandler.TargetDifference | src/Plugin/RepositoryHandler/LiveRepositoryHandler.php:141-160 | Only tracked types with a non-empty difference appear; each entry is a latest revision not tracked by the source, and every such revision appears |
| LiveHandler.TargetRevisionDifference | src/Plugin/RepositoryHandler/LiveRepositoryHandler.php:138-164 | The loop computes the target difference of the source's grouped base rows |
| RepositoryHandlers.CreateInstance | src/Plugin/RepositoryHandler/LocalWorkspaceRepositoryHandler.php:20-25 | Plugin id "live" gives the live handler; "local_workspace:<id>" of an existing workspace gives that workspace's handler; any other id gives the null handler; the source comes from the configuration |
| RepositoryHandlers.LocalWorkspaceRoundTrip | src/Plugin/RepositoryHandler/LocalWorkspaceRepositoryHandler.php:20-25 | The plugin id derived for an existing workspace resolves back to that workspace's handler |
| RepositoryHandlers.Label | src/Plugin/RepositoryHandler/LocalWorkspaceRepositoryHandler.php:107-109 | A local-workspace handler's label is its target workspace's label; the live and null handlers give their definition labels |
| RepositoryHandlers.Description | src/Plugin/RepositoryHandler/NullRepositoryHandler.php:64-66 | Each handler's description is its plugin definition's; the null handler's says "Do not use." |
| RepositoryHandlers.NullHandlerIsMarked | src/Plugin/RepositoryHandler/NullRepositoryHandler.php:11-15 | Only the null handler has the "Do not use." description, and the live handler's label differs from it |
| NullHandler.Push | src/Plugin/RepositoryHandler/NullRepositoryHandler.php:22-24 | Nothing changes |
| NullHandler.Pull | src/Plugin/RepositoryHandler/NullRepositoryHandler.php:29-31 | Nothing changes |
| NullHandler.QueriesAreEmpty | src/Plugin/RepositoryHandler/NullRepositoryHandler.php:36-66 | The conflict list and both differences are empty; label and description are the fallback definition's |
| LocalWorkspaceHandler.CollectAssociationIds | src/Plugin/RepositoryHandler/LocalWorkspaceRepositoryHandler.php:141-168 | The per-type loop collects exactly the selection |
| LocalWorkspaceHandler.RepointAssociations | src/Plugin/RepositoryHandler/LocalWorkspaceRepositoryHandler.php:171-197 | Each selected association is saved again under the target: the revision table grows by the repointed copies, the base table takes each in turn (each save taken as a default-revision save) and stays at one row per entity |
| LocalWorkspaceHandler.QueuePromotions | src/Plugin/RepositoryHandler/LocalWorkspaceRepositoryHandler.php:170-187 | Loading succeeds iff every selected content revision exists; then the queue holds each one promoted, in selection order |
| LocalWorkspaceHandler.PromotionSaves | src/Plugin/RepositoryHandler/LocalWorkspaceRepositoryHandler.php:205-207 | One save per selected association, in order, under the target; their keys are the selected revisions |
| LocalWorkspaceHandler.SaveQueued | src/Plugin/RepositoryHandler/LocalWorkspaceRepositoryHandler.php:205-207 | Exactly the queued revisions are promoted and saved, in queue order, after the existing log |
| LocalWorkspaceHandler.PromoteSelected | src/Plugin/RepositoryHandler/LocalWorkspaceRepositoryHandler.php:170-208 | Either nothing changes (a revision is missing) or the selected revisions are promoted, saved under the target, and the target is activated only when something was queued |
| LocalWorkspaceHandler.Replicate | src/Plugin/RepositoryHandler/LocalWorkspaceRepositoryHandler.php:124-216 | It completes iff the target is not default or all selected revisions load. On completion the active workspace is restored, the source is marked deployed, and the tables and content are as the target kind demands (repointed rows, each save taken as a default-revision save, or promoted revisions), with the exact sequence of workspace switches |
| LocalWorkspaceHandler.ReplicateToWorkspace | src/Plugin/RepositoryHandler/LocalWorkspaceRepositoryHandler.php:133-215 | For a non-default target, with the source made active, the selected association revisions are re-pointed to the target (each save taken as a default-revision save); afterwards the active workspace is the one before, the switches are source then that one, and the source's associations are deployed |
| LocalWorkspaceHandler.ReplicateToDefault | src/Plugin/RepositoryHandler/LocalWorkspaceRepositoryHandler.php:133-216 | For the default target it completes iff every selected content revision loads; then the selected revisions are promoted and saved once each in order under the target, the previous workspace is active again and the source is deployed; otherwise it stops with the source active and nothing else changed |
| EntityWorkspaceConflict.Validate | src/Plugin/Validation/Constraint/EntityWorkspaceConflictConstraintValidator.php:57-75 | At most one violation; one iff the entity exists, is not new, is tracked, and not by the active workspace; it names the label of the first tracking row's workspace |
| EntityWorkspaceConflict.ActiveTrackerMaySave | src/Plugin/Validation/Constraint/EntityWorkspaceConflictConstraintValidator.php:65 | When the active workspace tracks the entity there is no violation, whoever else tracks it |
| EntityWorkspaceConflict.SingleOwner | src/Plugin/Validation/Constraint/EntityWorkspaceConflictConstraintValidator.php:59-65 | A tracked existing entity passes iff the active workspace is its owner or tracks it too |
| DeletedWorkspace.ReferenceCount | src/Plugin/Validation/Constraint/DeletedWorkspaceConstraintValidator.php:51-56 | The count of association revisions of the id is positive iff some revision references it |
| DeletedWorkspace.Validate | src/Plugin/Validation/Constraint/DeletedWorkspaceConstraintValidator.php:45-60 | As written: no violation for a null value; one violation iff any association revision references the id |
| DeletedWorkspace.ValidateNewOnly | src/Plugin/Validation/Constraint/DeletedWorkspaceConstraintValidator.php:45-60 | Corrected: one violation iff the workspace is new and its id is referenced |
| DeletedWorkspace.ExistingWorkspaceRejected | src/Plugin/Validation/Constraint/DeletedWorkspaceConstraintValidator.php:51-59 | An existing workspace with any association revision fails its own id check as written, and passes the corrected one |
| DeletedWorkspace.NewWorkspaceReuse | src/Plugin/Validation/Constraint/DeletedWorkspaceConstraintValidator.php:45-60 | For a new workspace both rules agree: the id is reusable iff no revision references it |
| WorkspaceEntity.Violations | src/Entity/Workspace.php:77-119 | Id and target are required; valid iff id non-empty, at most 128 characters, matching `^[a-z0-9_]*$`, unique, not referenced (for a new workspace), name non-empty and at most 128, and target at most 255 (the string field's default length) |
| WorkspaceEntity.IdViolations | src/Entity/Workspace.php:76-83 | The id is reported as required iff empty, as still referenced iff the workspace is new and an association revision references it, and is free of violations iff it is non-empty, at most 128 characters, matches the pattern, is unique and (when new) unreferenced |
| WorkspaceEntity.LengthViolations | src/Entity/Workspace.php:85-91 | A required string field with a maximum length reports only `Required` and `TooLong`: the first iff the value is empty, the second iff it is longer than the maximum |
| WorkspaceEntity.TrailingNewlinePasses | src/Entity/Workspace.php:84 | An id of allowed characters followed by one newline matches the pattern; two newlines do not |
| WorkspaceEntity.ForeignCharacterFails | src/Entity/Workspace.php:84 | Any character outside the class, except a final newline, fails the pattern |
| WorkspaceEntity.PunctuationIdFails | src/Entity/Workspace.php:84 | "a0_$()+-/" is rejected by the pattern |
| WorkspaceEntity.Workspace.constructor | src/Entity/Workspace.php:93-119 | A new workspace is owned by the current user and targets "live" |
| WorkspaceEntity.Workspace.IsDefaultWorkspace | src/Entity/Workspace.php:140-142 | True iff the id is "live" |
| WorkspaceEntity.Workspace.RepositoryHandlerConfig | src/Entity/Workspace.php:128-132 | A configuration `{source: id, target}` exists iff the target is truthy and not `_none` |
| WorkspaceEntity.Workspace.RepositoryHandlerPlugin | src/Entity/Workspace.php:127-135 | A handler exists iff the configuration does; "live" gives the live handler, a local plugin id gives that workspace's handler, and any other target the null handler |
| WorkspaceEntity.Workspace.SetOwnerId | src/Entity/Workspace.php:177-187 | The owner read back is the one set; nothing else changes |
| WorkspaceEntity.Workspace.SetCreatedTime | src/Entity/Workspace.php:147-157 | The start time read back is the given time cast to a 64-bit integer; nothing else changes |
| WorkspaceEntity.LocalTargetsResolve | src/Entity/Workspace.php:127-135 | A target naming an existing workspace's local plugin resolves to that workspace's handler |
| WorkspaceEntity.PostDelete | src/Entity/Workspace.php:192-201 | The deleted list gains every deleted id except "live", keyed id ⇒ id, and keeps its old entries |
| EntityTypeInfo.EntityTypeBuild | src/EntityTypeInfo.php:70-76 | Exactly the eligible entity types gain the conflict constraint; others are unchanged |
| EntityTypeInfo.FormLock | src/EntityTypeInfo.php:90-111 | Corrected: a lock iff the form's entity is eligible and its first tracking row belongs to a workspace other than the active one; the lock names that workspace's label |
| EntityTypeInfo.FirstRowIsHead | src/EntityTypeInfo.php:98-100 | The first tracked workspace is the workspace of the first base row about the entity |
| EntityTypeInfo.FormLockAsWritten | src/EntityTypeInfo.php:90-111 | As written: a lock iff the entity is eligible and its first tracking row's workspace is not loosely equal to the active id; the lock names that workspace's label, and every lock it gives is the corrected one |
| EntityTypeInfo.LooseComparisonUnlocksForm | src/EntityTypeInfo.php:102 | Workspace "1" tracks the entity and "01" is active: no lock as written, a lock when corrected, and the validator refuses the save |
| EntityTypeInfo.FormLockAgreesWithValidator | src/EntityTypeInfo.php:98-106 | In a valid store (one base row per entity), an eligible existing entity's form is locked iff saving it is refused |
| EntityTypeInfo.FormAlter | src/EntityTypeInfo.php:90-111 | With the corrected strict comparison, a locked form gets the message and no access; any other form is left as it was |
| EntityAccess.BypassAccessResult | src/EntityAccess.php:104-114 | Never forbidden; allowed iff the account has `bypass_entity_access_workspace_<active id>`, or owns the active workspace and has "bypass entity access own workspace" |
| EntityAccess.EntityAccess | src/EntityAccess.php:65-76 | Neutral for workspace entities and ineligible types; for every other entity exactly the bypass decision; never forbidden |
| EntityAccess.EntityCreateAccess | src/EntityAccess.php:90-97 | Neutral for the workspace bundle; for every other bundle exactly the bypass decision; never forbidden |
| EntityAccess.BypassFallsBackToDefault | src/EntityAccess.php:107 | With no active workspace, bypass is decided as in the default workspace |
| EntityAccess.PermissionNameInjective | src/EntityAccess.php:147-215 | Two different permission keys never share a machine name |
| EntityAccess.PermissionOf | src/EntityAccess.php:147-215 | A permission carries its kind and the workspace label; only the bypass permission restricts access |
| EntityAccess.PermissionSetShape | src/EntityAccess.php:129-134 | One workspace contributes exactly its four permission keys, each with its own permission |
| EntityAccess.WorkspacePermissions | src/EntityAccess.php:126-137 | The keys are exactly the four kinds for each workspace id; each is labelled with the first workspace of that id; only bypass is restricted |
| Php.ArrayUnion | src/Entity/Workspace.php:200 | Array `+`: the union of keys, the left operand's values kept, the right's only for new keys |
| Php.IntCast | src/Entity/Workspace.php:148 | `(int)` gives a 64-bit integer: the value truncated toward zero when that is in range, and otherwise the truncation wrapped modulo 2^64 |
| Php.IntCastWraps | src/Entity/Workspace.php:148 | The float 2^63 casts to the smallest integer |
| Php.LeadingZeroLooselyEqual | src/EntityTypeInfo.php:102 | A digit string within the integer range and the same string with a leading zero are loosely equal but different |
| Php.OverflowLeadingZeroDiffers | src/EntityTypeInfo.php:102 | Two digit strings beyond the integer range compare byte for byte, so a leading zero makes them unequal |

## Left out

- I/O and the framework:
  - SQL queries become functions over the two in-memory tables;
  - entity loading and saving become the content map and its save log;
  - the plugin manager and the local-workspace deriver become `CreateInstance`;
  - translation (`t()`) leaves the template and its placeholder unexpanded in `Markup`.
- Dependency calculation and container factories are not modelled.
- `purgeDeletedWorkspacesBatch` (src/Entity/Workspace.php:205) is left out: it is a batch job in the workspace manager, which is not part of this model.
- The Drush commands and the negotiator interface are outside the core.
- Concurrency and locking are not modelled. The source has none.
- AssociationStore.MarkAsDeployed: the storage class does not implement it; only the interface declares it. It is modelled by analogy with `markAsPushed`, setting `deployed` on every row of the workspace in both tables.
- LiveHandler.PromoteRevisions: the number of saves is stated through `SavedOnce` (no revision saved twice), which with the saved key set fixes it (`LiveHandler.SavedOnceCount`); `Push` states the count outright. The order of saves is not stated. The keys are a set, and the source's order follows the grouped map. `loadMultipleRevisions` skips revisions that do not exist; the model does too.
- AssociationStorage.AssociationStore.SaveAssociationRevision: every save is modelled as a save of the association's default revision, which replaces the entity's base row. When `replicate` re-points an older association revision loaded with `loadRevision` (src/Plugin/RepositoryHandler/LocalWorkspaceRepositoryHandler.php:176), the entity framework saves it as a non-default revision and leaves the base table as it was. The model does not track which association revision is the default, so `RepointAssociations` and `Replicate` state the base table only for default-revision saves.
- Php.IntCast: NaN and the infinities are not real numbers and are not modelled; PHP casts them to 0.
- LocalWorkspaceHandler.Replicate: loading a content revision that does not exist is a fatal error in the source. It is modelled as `ok == false`. The state at that point is kept, with the source left active, because the source has no try/finally to restore it.
- EntityWorkspaceConflict.Validate: the active workspace is passed in as its id.
- The repository-handler argument objects of `replicate` are taken as their workspace ids.
- EntityAccess.BypassAccessResult: `getActiveWorkspace(TRUE)` is modelled as the active id, falling back to the default workspace.
- The owner comparison uses `==` between integers, as the user ids are integers.
- EntityAccess.WorkspacePermissions: permissions are keyed by a `(kind, workspace id)` pair rather than by the machine name string. `PermissionNameInjective` shows the two keyings agree. Titles and descriptions are kept as template texts with the label as placeholder (`Permission.TitleMarkup`, `Permission.DescriptionMarkup`).
- The tests grant the bypass permission as `'bypass entity access workspace ' . id`, with spaces. The code checks `bypass_entity_access_workspace_<id>`; the model follows the code.
- The tests call `a0_$()+-/` a valid id, but the pattern rejects it. The model follows the code (`PunctuationIdFails`).
- DeletedWorkspace.ReferenceCount counts rows, as the SQL `count()` does, not distinct workspaces. Only whether the count is zero matters.
- Php.LooseEquals covers two strings of decimal digits and otherwise strict equality. Digit strings within the 64-bit range compare as numbers, and two beyond it compare byte for byte, as PHP does when both overflow to floats. Other numeric-string forms (signs, exponents, whitespace) are not modelled.
- WorkspaceEntity.Violations: the `UniqueField` constraint is modelled as "not among the other workspaces' ids". The target's 255-character limit is not written in src/Entity/Workspace.php:114-119; it is the default `max_length` of a `string` base field, which that definition does not override. Violation messages are not modelled. The name field is `name` here, because `label` is a reserved word in Dafny.

## Findings

| source | as written | input that shows it | evidently intended | confidence | as-written member | corrected member |
|---|---|---|---|---|---|---|
| src/EntityTypeInfo.php:102 | The form lock compares the first tracked workspace id with the active id using loose `!=` | Workspace "1" tracks the entity and workspace "01" is active: `"1" != "01"` is false in PHP, so the form stays editable, while the validator's strict `in_array` refuses the save | Strict comparison, as the validator uses | medium, not executed | EntityTypeInfo.FormLockAsWritten (shown by EntityTypeInfo.LooseComparisonUnlocksForm) | EntityTypeInfo.FormLock (used by EntityTypeInfo.FormAlter) |
| src/Plugin/Validation/Constraint/DeletedWorkspaceConstraintValidator.php:47-59 | The id is rejected whenever any association revision references it, even when the workspace being validated already exists | An existing workspace with one tracked revision, saved again: its own association row makes its id check fail | Only a new workspace is checked, so an id cannot be reused while rows still reference it | medium, not executed | DeletedWorkspace.Validate (shown by DeletedWorkspace.ExistingWorkspaceRejected) | DeletedWorkspace.ValidateNewOnly (used by WorkspaceEntity.Violations) |

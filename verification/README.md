# Verified models of the agent lifecycle, the assistant storage and the string codecs

The project models five parts of the application and proves, for every input, every interleaving or
every history, what they guarantee.  Where the code does not keep what its documentation says,
there is a concrete counterexample and an exact condition.

**Task manager** (`TaskProtocol`, `TaskManager`, `TaskOutcomes`, `TaskLeaks`).  Any number of calls to `get_or_build_task`, `kill`,
`kill_and_wait` and `clear` interleave on a map from conversations to once-only cells.  Taking a slot out
of the map, looking at its cell and killing what was found are separate steps, and builds may fail or be
cancelled.  Each slot is built at most once, a call fails only by its own cancellation or build, and a
waiting call gets the instance of its slot.  "At most one active task per conversation" is false: a
removal that looks while a build is in flight leaves an instance behind.  Exactly such instances can never
be killed again.  `TaskLeaks` has the exact condition: two live instances can come about iff a remover looks
at a cell that is not set while a call waits for it or builds into it.

**Runtime** (`AgentRuntime`).  The status is written under a lock and the event is broadcast after it is
released.  Whatever the interleaving, the terminal events are those of the turns whose first finisher was
an emit.  Each is delivered in its own turn, in order, iff no reset fires while a broadcast is outstanding.

**Registry** (`ConfigOptions`, `AgentCatalog`, `RegistryProtocol`, `OptionLaws`, `AgentRegistry`).  A cache of decoded rows
is fed by a bounded queue with one consumer.  Hydration reads the table in one step and swaps the cache in
another.  The cache mirrors the table for every id not written since its copy was read; when a hydration
overlaps an update it does not, and the next update then loses a configuration option.  Without such an
overlap none is ever lost.

**Assistants** (`AssistantTables` … `Visibility`).  Definitions, overlays, preferences, the legacy rows and
profiles are tables written one after the other, and a failing operation leaves its earlier writes behind.
`StorageHistory` runs any operations in any order from an empty database, each under the configuration of
the release performing it (only the shipped ids must not start with `profile:`).  One invariant
(`AssistantInvariants.Inv`) holds after every operation, successful or not; the laws follow from it.  That a
fixed default is also the stored preference is not part of it: conversations are part of the histories, and
one that began before the default was fixed can break it (`AssistantInvariants.Strays`).
`AssistantTablesInPlace` has the operations as an object updating its tables, each tied to its function and
to what its caller sees; `RequestFields`, `BootstrapRows`, `OperationFacts` and `ProfileFacts` say that on the
fields of requests, shipped assistants, legacy rows and profiles.  `StorageWitnesses` reaches the states of the failure laws from an empty database.

Deleting a definition only marks its row, and the unique indexes cover marked rows.  Hence an id once
deleted can never be created again; the failed attempt leaves a legacy row that makes the next
bootstrap, and with it the start of the application, fail; and a profile deactivated once never gets
its assistant back.

**Codecs** (`Text`, `Cookie`, `Base64Url`, `IdentityToken`, `RuleFiles`, `LogoPath`).

Where code and documentation differ, the model follows the code:

- `crates/aionui-assistant/src/profile_compiler.rs:22-35` says manual edits of generated assistants survive
  until the next compilation.  Such edits are refused with "not found"
  (`ProfileLaws.GeneratedAssistantsAreOutOfReach`).
- `crates/aionui-api-types/src/agent_discovery.rs:146-149` says a resolved command is present iff the agent is
  available.  Internal agents without a command are the exact exception (`AgentCatalog.AvailableWithoutPathIff`).
- A change of agent backend clears the stored model and permission defaults, but not the preference they
  were copied to, so the same values stay in effect (`UpdateLaws.BackendChangeKeepsWhatIsResolvedIff`).
- A user update turns automatic skills into a fixed list (`UpdateLaws.UserUpdateFields`).
- A conversation that began before a default was fixed overwrites the preference the default was copied to
  (`AssistantConversation.ChooseStraysIff`).  The next start, or any update, then drops the fixed value in
  favour of that preference (`AssistantBootstrap.BootstrapChangesResolvedIff`,
  `UpdateLaws.UserUpdateKeepsUnnamedIff`, `StorageWitnesses.StartingChangesTheModel`).
- Retrying an aborted import counts the lost entry as skipped (`ImportLaws.RetryAfterAbortSkips`).

## Model

| member | source | states |
|---|---|---|
| `TaskProtocol.NextKeepsInv` | crates/aionui-ai-agent/src/task_manager.rs:103-163 | every step of every caller keeps slots, cells, callers and removers consistent |
| `TaskManager.SingleFlight` | crates/aionui-ai-agent/src/task_manager.rs:103-125 | in every interleaving a slot is initialised at most once, one factory call runs per slot, and callers of a slot that return Ok return one instance |
| `TaskOutcomes.CallFailsIff` | crates/aionui-ai-agent/src/task_manager.rs:103-125 | in every interleaving a call fails iff it is cancelled while it waits or builds, or the factory it runs itself fails |
| `TaskOutcomes.OthersFailuresDoNoHarm` | crates/aionui-ai-agent/src/task_manager.rs:103-125 | so a call that is neither cancelled nor has a failing build never fails, whatever the others do |
| `TaskOutcomes.WaiterGetsTheInstance` | crates/aionui-ai-agent/src/task_manager.rs:117-124 | in every reachable state a call waiting for a set cell can return, and any step of its own but a cancellation keeps it waiting or returns that instance |
| `TaskOutcomes.BuilderGetsItsOwn` | crates/aionui-ai-agent/src/task_manager.rs:117-124 | a call that builds returns what it built and leaves it in the slot; a failed or cancelled build leaves the slot empty |
| `TaskOutcomes.CallsShareTheSlot` | crates/aionui-ai-agent/src/task_manager.rs:106-116 | calls for one conversation wait for one slot, made only if there was none |
| `TaskOutcomes.OneCallBuilds` | crates/aionui-ai-agent/src/task_manager.rs:117-124 | one of the calls waiting for an empty slot can begin to build, and then no other can |
| `TaskManager.InitialisedAtMostOnce` | crates/aionui-ai-agent/src/task_manager.rs:117-124 | from any consistent state a slot is initialised at most once, and never if it already is |
| `TaskManager.EveryInstanceIsAccountedFor` | crates/aionui-ai-agent/src/task_manager.rs:103-163 | every built instance is in the map's slot, killed, held by a remover, or was built into a slot whose cell was empty when the remover looked |
| `TaskManager.OneLiveInstancePerConversation` | crates/aionui-ai-agent/src/task_manager.rs:25-45 | two live instances of a conversation exist only if one of them leaked that way |
| `TaskManager.NoInstanceIsKilledTwice` | crates/aionui-ai-agent/src/task_manager.rs:127-163 | no interleaving of removers kills an instance twice |
| `TaskManager.KillableIffNotLeaked` | crates/aionui-ai-agent/src/task_manager.rs:127-163 | from every reachable state some continuation kills an instance iff it has not leaked |
| `TaskManager.ConversationCanHaveTwoTasks` | crates/aionui-ai-agent/src/task_manager.rs:25-45 | a run of nine steps leaves one conversation with two live instances, one of which can never be killed |
| `TaskLeaks.LiveIff` | crates/aionui-ai-agent/src/task_manager.rs:103-163 | in every reachable state an instance is live iff it is in the map or leaked |
| `TaskLeaks.AbandonedSlotIsBuiltIff` | crates/aionui-ai-agent/src/task_manager.rs:103-149 | an instance can still be built into a slot a remover gave up on iff a call waits for it or builds into it |
| `TaskLeaks.LookLeavesTwoIff` | crates/aionui-ai-agent/src/task_manager.rs:127-149 | when a remover looks at a cell that is not set, the conversation can come to have two live instances, one in that slot, iff a call then waits for it or builds into it |
| `TaskLeaks.WithoutMissesOneTask` | crates/aionui-ai-agent/src/task_manager.rs:25-45 | on every run without such a look each conversation has at most one live instance |
| `TaskLeaks.MissComesFirst` | crates/aionui-ai-agent/src/task_manager.rs:25-45 | two live instances of a conversation are always preceded by such a look |
| `TaskManager.WorkerTaskManager.Kill` | crates/aionui-ai-agent/src/task_manager.rs:127-149 | the slot is gone, exactly its initialised instance is killed, no instance twice |
| `TaskManager.WorkerTaskManager.Clear` | crates/aionui-ai-agent/src/task_manager.rs:151-163 | the map is empty and exactly the initialised instances in it are killed, each once |
| `TaskManager.WorkerTaskManager.GetOrBuildTask` | crates/aionui-ai-agent/src/task_manager.rs:103-125 | an initialised slot answers without a build; otherwise one build, whose failure leaves the cell empty for a later caller |
| `AgentRuntime.TerminalEventsAreTurnOutcomes` | crates/aionui-ai-agent/src/agent_runtime.rs:88-150 | sent and pending terminal events are exactly one per turn whose first writer of Finished is an emit |
| `AgentRuntime.TerminalEventsBounded` | crates/aionui-ai-agent/src/agent_runtime.rs:88-150 | sent plus pending never exceed one plus the number of resets |
| `AgentRuntime.FinishedIffLastTurnFinished` | crates/aionui-ai-agent/src/agent_runtime.rs:88-103 | the status is Finished iff the last turn finished or began finished |
| `AgentRuntime.PromptRunsDeliverInOrder` | crates/aionui-ai-agent/src/agent_runtime.rs:105-150 | if no reset fires while a broadcast is outstanding, the events sent are the outcomes of the turns as a sequence, at most the last one still outstanding |
| `AgentRuntime.OnTimeIffPrompt` | crates/aionui-ai-agent/src/agent_runtime.rs:109-150 | each turn has delivered its event, in order, before the next begins iff no reset fires while a broadcast is outstanding |
| `AgentRuntime.OutstandingEventCanArriveInTheNextTurn` | crates/aionui-ai-agent/src/agent_runtime.rs:100-129 | otherwise: an event outstanding at a reset can be delivered inside the new turn |
| `AgentRuntime.TerminalEventCanArriveInTheNextTurn` | crates/aionui-ai-agent/src/agent_runtime.rs:100-129 | a run from the start in which this happens |
| `AgentRuntime.Runtime.Emit` | crates/aionui-ai-agent/src/agent_runtime.rs:111-150 | claim then broadcast: Finished afterwards, one event unless it already was; over any trace of calls the events sent are the outcomes of the turns in order |
| `AgentRuntime.Runtime.TransitionTo` | crates/aionui-ai-agent/src/agent_runtime.rs:88-98 | one transition step: Finished absorbs it |
| `AgentRuntime.Runtime.ResetForNewTurn` | crates/aionui-ai-agent/src/agent_runtime.rs:100-103 | one reset step: overrides Finished |
| `ConfigOptions.MergeFinds` | crates/aionui-ai-agent/src/manager/acp/config_option_catalog.rs:82-103 | a reader of the merged list finds the last incoming option of an id, else the stored one; stored options keep their places |
| `ConfigOptions.MergeConfigOptions` | crates/aionui-ai-agent/src/manager/acp/config_option_catalog.rs:82-103 | the in-place loop computes the merge |
| `AgentCatalog.RefreshAfterLoadIsNoop` | crates/aionui-ai-agent/src/registry.rs:161-203 | refreshing freshly loaded rows changes nothing; available implies enabled; an unavailable row has a reason |
| `AgentCatalog.AvailableIff` | crates/aionui-ai-agent/src/registry.rs:320-374 | on the fields of a cached row: what it needs to be available, and what its path is |
| `AgentCatalog.ReasonIff` | crates/aionui-ai-agent/src/registry.rs:594-652 | for each reason exactly which rows get it: the first missing piece in the order they are looked for |
| `AgentCatalog.DecodedFields` | crates/aionui-ai-agent/src/registry.rs:320-374 | a row decodes iff its type and source are known, column by column, and its availability is that of its fields |
| `AgentCatalog.AppliedFields` | crates/aionui-ai-agent/src/registry.rs:104-148 | a handshake changes only the columns it brings |
| `AgentCatalog.CatalogFollowsOptions` | crates/aionui-ai-agent/src/registry.rs:104-148 | modes and models stored beside an option list are those derived from it, and otherwise those the update brings |
| `AgentCatalog.AvailableWithoutPathIff` | crates/aionui-ai-agent/src/registry.rs:320-374 | available without a resolved path iff enabled, internal and without a command |
| `AgentCatalog.BeforeIsAnOrder` | crates/aionui-ai-agent/src/registry.rs:245-256 | the list order is total and transitive |
| `RegistryProtocol.CacheMirrorsTable` | crates/aionui-ai-agent/src/registry.rs:104-209 | in every interleaving a cached row is the decoded table row, and merging against the cache is merging against the table, for every id not written since its copy was read |
| `RegistryProtocol.CachedRowsAreSound` | crates/aionui-ai-agent/src/registry.rs:186-203 | in every interleaving a cached row is available iff everything it needs is on PATH or in the managed runtime, it resolves to the tool or to its command on PATH, and refreshing is a no-op |
| `RegistryProtocol.MessagesConserved` | crates/aionui-ai-agent/src/registry.rs:82-102 | applied messages, then those in hand, then the queue, are the accepted ones in order; the queue never exceeds 256 |
| `RegistryProtocol.SendFindsRoomIff` | crates/aionui-ai-agent/src/registry.rs:515-535 | in every interleaving an update is refused iff 256 accepted ones have not been received yet |
| `RegistryProtocol.DrainedRowsHoldTheLastAcceptedValues` | crates/aionui-ai-agent/src/registry.rs:104-148 | after draining, each plain handshake field holds the last accepted value or its initial one |
| `RegistryProtocol.OverlapLeavesOldCache` | crates/aionui-ai-agent/src/registry.rs:161-184 | a hydration overlapping an update writes the row and leaves the old copy cached |
| `RegistryProtocol.HydrationLosesAnOption` | crates/aionui-ai-agent/src/registry.rs:104-209 | after that overlap the next update erases an accepted option from the table |
| `OptionLaws.WriteDropsIff` | crates/aionui-ai-agent/src/registry.rs:104-148 | a write of the consumer drops a stored option iff it writes options and the option was neither in the cached options read on receipt nor in the update |
| `OptionLaws.DrainedRowsHoldTheLastAcceptedOptions` | crates/aionui-ai-agent/src/registry.rs:104-148 | after draining each option of a row holds its last accepted value or its initial one, if each update of the row was received while its cached copy was up to date |
| `OptionLaws.FreshSwapsGiveFreshReceives` | crates/aionui-ai-agent/src/registry.rs:161-209 | that is so on every run on which no hydration read the table before a write to the row and replaces the cache after it |
| `OptionLaws.OptionsSurviveFreshSwaps` | crates/aionui-ai-agent/src/registry.rs:104-209 | after the first loading, options are lost only to such a hydration |
| `OptionLaws.OptionCanBeLostIff` | crates/aionui-ai-agent/src/registry.rs:104-148 | from any reachable state with nothing on its way, some continuation without another late swap loses a stored option iff it is missing from the cached copy |
| `OptionLaws.SwapLosesIff` | crates/aionui-ai-agent/src/registry.rs:161-209 | after a hydration replaced the cache, exactly the options its reading of the row lacks can be lost |
| `AgentRegistry.Registry.Hydrate` | crates/aionui-ai-agent/src/registry.rs:161-184 | afterwards the cache is the decoded table |
| `AgentRegistry.Registry.RefreshAvailability` | crates/aionui-ai-agent/src/registry.rs:186-203 | every row is probed again: only availability and path change, and they are what the fields of the row and PATH say; nothing changes on a coherent cache |
| `AgentRegistry.Registry.ApplyHandshake` | crates/aionui-ai-agent/src/registry.rs:104-148 | partial update of one row; a missing row changes nothing; coherence is kept |
| `AgentRegistry.Registry.ListAll` | crates/aionui-ai-agent/src/registry.rs:245-256 | a sorted permutation of the rows that are enabled and available |
| `AgentRegistry.InsertSorted` | crates/aionui-ai-agent/src/registry.rs:250-254 | insertion keeps order and contents |
| `AssistantTables.UpsertKeepsIndexes` | crates/aionui-db/migrations/012_assistant_data_unification.sql:63-68 | a write goes through iff the table it leaves satisfies both unique indexes, and then the written row is the live row of its key |
| `AssistantEffects.WriteEffect` | crates/aionui-assistant/src/service.rs:1340-1366 | writing a key rewrites its live row or adds one, and fails iff the key's row is marked deleted |
| `AssistantEffects.ValidatedRequestsSync` | crates/aionui-assistant/src/service.rs:1708-1745 | a request that passes validation is well formed and never fails in the preference sync |
| `AssistantEffects.SyncEffect` | crates/aionui-assistant/src/service.rs:703-846 | the sync stores the seeded preference and touches no other row |
| `AssistantEffects.OverridesPatch` | crates/aionui-assistant/src/service.rs:263-366 | patching a live row cannot clash, and changes only that row and its legacy copies |
| `AssistantRuns.StoreUserEffect` | crates/aionui-assistant/src/service.rs:562-569 | storing a user assistant either yields the patched definition with its preference or is refused leaving a legacy row; the invariant holds either way |
| `AssistantRuns.CreateKeepsInv` | crates/aionui-assistant/src/service.rs:517-570 | create keeps the invariant and every row, key and deletion mark |
| `AssistantRuns.UpdateUserKeepsInv` | crates/aionui-assistant/src/service.rs:656-701 | so does the user update |
| `AssistantUpdates.UpdateBuiltinKeepsInv` | crates/aionui-assistant/src/service.rs:574-652 | so does the built-in update, although it compares with the row it has already patched |
| `AssistantUpdates.DeleteKeepsInv` | crates/aionui-assistant/src/service.rs:848-885 | so does delete |
| `AssistantUpdates.SetStateKeepsInv` | crates/aionui-assistant/src/service.rs:887-945 | so does set_state |
| `AssistantUpdates.ListKeepsInv` | crates/aionui-assistant/src/service.rs:413-453 | so does the clean-up of orphaned overrides in list |
| `AssistantBootstrap.BootstrapKeepsEffectiveDefaults` | crates/aionui-assistant/src/service.rs:102-208 | bootstrap, finished or not, keeps the invariant and every overlay; a live assistant resolves another model, permission or mcps afterwards iff its row was rewritten and its preference had strayed from a fixed default, and then what it prefers |
| `AssistantBootstrap.BootstrapChangesResolvedIff` | crates/aionui-assistant/src/service.rs:102-183 | a successful bootstrap changes what an assistant resolves iff its preference has strayed and its key is shipped or migrates |
| `AssistantBootstrap.BootstrapSucceedsIff` | crates/aionui-assistant/src/service.rs:102-183 | bootstrap succeeds iff no shipped id and no migrating legacy id belongs to a marked row |
| `BootstrapRows.ShippedRows` | crates/aionui-assistant/src/service.rs:112-173 | after every successful bootstrap each shipped id has a live built-in row with the name, description, backend, rule kind, prompts and skills of its last entry, and open defaults |
| `BootstrapRows.MigratedRows` | crates/aionui-assistant/src/service.rs:175-261 | and each legacy row of a user assistant has a live user row with what it says |
| `ImportLaws.ImportFromKeepsInv` | crates/aionui-assistant/src/service.rs:954-1083 | import keeps the invariant, aborted or not |
| `ImportLaws.EntriesConserved` | crates/aionui-assistant/src/service.rs:954-1083 | imported, skipped and failed add up to the batch iff it was not aborted, and the counter of failures stays equal to the number of errors reported |
| `ImportLaws.ImportSparesExisting` | crates/aionui-assistant/src/service.rs:951-983 | no existing legacy row, definition behind one, or built-in id is changed, nor any preference or state |
| `ImportLaws.ImportAbortsIff` | crates/aionui-assistant/src/service.rs:1062-1066 | a batch is aborted iff it would store an id whose row is marked deleted |
| `ImportLaws.ImportedRows` | crates/aionui-assistant/src/service.rs:963-1066 | after a finished batch each id has the row it had, or one with the trimmed name, the description, the backend (the one named, otherwise the default), the skills and the prompts of the first entry that could be stored |
| `ImportLaws.ImportedDefinitions` | crates/aionui-assistant/src/service.rs:210-261 | each new id has a live user assistant with exactly what its legacy row says and open defaults |
| `ImportLaws.CreatableIff` | crates/aionui-assistant/src/service.rs:963-1032 | an entry can be stored iff its id is new and not built in, its name is not blank, and a backend is named or the default one is available |
| `ImportLaws.CountersTellTheTruth` | crates/aionui-assistant/src/service.rs:954-1083 | the entries counted as imported are the new legacy rows, and the errors reported are the ids without a name or a backend, in order |
| `ImportLaws.FailureFreeImportIsIdempotent` | crates/aionui-assistant/src/service.rs:951-1083 | running a failure-free batch again skips every entry and changes nothing |
| `ImportLaws.RetryAfterAbortSkips` | crates/aionui-assistant/src/service.rs:1062-1071 | retrying an aborted entry counts it as skipped although no assistant exists |
| `ImportLaws.ImportBatch` | crates/aionui-assistant/src/service.rs:954-1083 | the loop with its cached backend equals resolving afresh for each entry, with one lookup |
| `StorageHistory.ApplyKeepsInv` | crates/aionui-assistant/src/service.rs:102-1083 | every operation keeps the invariant |
| `StorageHistory.RunKeepsInv` | crates/aionui-assistant/src/service.rs:102-1083 | so does every history, across releases |
| `StorageLaws.FixedDefaultsArePreferences` | crates/aionui-assistant/src/service.rs:703-846 | after every history in which no older conversation overtook a default of the assistant, a default fixed at v is the stored preference v |
| `StorageLaws.StraysComeFromOlderConversations` | crates/aionui-conversation/src/service.rs:1317-1455 | a preference strays from a fixed default only through a conversation that began before the default was fixed |
| `StorageLaws.OvertakingStrays` | crates/aionui-conversation/src/service.rs:1317-1455 | at each such step it strays iff the recorded mode is automatic, the default is fixed now, and another value is chosen |
| `StorageLaws.NoEmptyPreferenceIsStored` | crates/aionui-assistant/src/service.rs:810-846 | histories without conversations never store an all-empty preference row |
| `StorageLaws.EmptyRowsComeFromConversations` | crates/aionui-conversation/src/service.rs:1205-1455 | in any history an all-empty row was stored by a conversation, when it started or when it chose |
| `AssistantConversation.StartKeepsInv` | crates/aionui-conversation/src/service.rs:1205-1270 | starting a conversation keeps the invariant and lets no preference stray |
| `AssistantConversation.StartStoresEmptyIff` | crates/aionui-conversation/src/service.rs:1205-1270 | it stores an all-empty row iff nothing was remembered and nothing left open is chosen |
| `AssistantConversation.StartRemembers` | crates/aionui-conversation/src/service.rs:1205-1270 | a choice is remembered in its own field iff that default is open, the modes are recorded for the conversation, and other assistants keep their preference |
| `AssistantConversation.ChooseRemembers` | crates/aionui-conversation/src/service.rs:1317-1455 | a later choice is remembered iff the recorded mode was open; skills and mcps never change |
| `AssistantConversation.ChooseStoresEmptyIff` | crates/aionui-conversation/src/service.rs:1317-1455 | so does a later choice iff nothing was remembered and it chooses nothing for a default recorded as automatic |
| `AssistantConversation.ChooseStraysIff` | crates/aionui-conversation/src/service.rs:1317-1455 | a choice lets the preference of an assistant stray iff it is at odds with a default that was automatic when the conversation began and has been fixed since |
| `StorageWitnesses.Strayed` | crates/aionui-conversation/src/service.rs:1317-1455 | from an empty database: create, converse, fix the model at v, choose w; the assistant resolves v and prefers w |
| `StorageWitnesses.StartingChangesTheModel` | crates/aionui-assistant/src/service.rs:102-183 | the next start then makes it resolve w |
| `StorageWitnesses.RenamingChangesTheModel` | crates/aionui-assistant/src/service.rs:656-701 | and so does renaming it |
| `StorageLaws.DefaultsStayWellFormed` | crates/aionui-assistant/src/service.rs:1770-1803 | auto has no value and fixed a non-blank one, on every row of every history |
| `StorageLaws.OverridesMirrorOverlays` | crates/aionui-db/src/repository/sqlite_assistant.rs:629-717 | the downgrade copy of an overlay never says anything else |
| `OperationFacts.CreateFacts` | crates/aionui-assistant/src/service.rs:517-570 | what create stores, field by field, and for each error exactly when it is given |
| `OperationFacts.UpdateFacts` | crates/aionui-assistant/src/service.rs:572-701 | the same for update, which writes nothing when it fails |
| `StorageLaws.TombstonesAreForever` | crates/aionui-db/migrations/012_assistant_data_unification.sql:63-68 | a deleted row keeps its key through every later history |
| `StorageLaws.CreateSucceedsIff` | crates/aionui-assistant/src/service.rs:517-570 | create succeeds iff the request is acceptable and the id was never deleted; on a deleted id it leaves a legacy row |
| `StorageLaws.DeletedIdsAreLost` | crates/aionui-assistant/src/service.rs:848-885 | whatever happens after a delete, creating the id fails, and that attempt makes the next bootstrap fail |
| `StorageLaws.DeletingTheLeftoverHelps` | crates/aionui-assistant/src/service.rs:848-885 | deleting the left-over row removes the obstacle |
| `StorageWitnesses.RecreatingStopsStartup` | crates/aionui-assistant/src/service.rs:848-885 | from an empty database: create, delete, create again, and the start is refused |
| `StorageWitnesses.ImportLosesTheEntry` | crates/aionui-assistant/src/service.rs:1062-1071 | a reachable state in which an import aborts and its retry skips the entry |
| `UpdateLaws.UserUpdateDefaults` | crates/aionui-assistant/src/service.rs:656-701 | stored model and permission are the request's or auto; what is in effect follows the request, and for what it leaves out the preference |
| `UpdateLaws.UserUpdateKeepsUnnamedIff` | crates/aionui-assistant/src/service.rs:656-701 | a field left out resolves as before iff its default, where fixed, was also the preference; an update without defaults changes nothing in effect iff nothing had strayed |
| `UpdateLaws.UserUpdateFields` | crates/aionui-assistant/src/service.rs:669-693 | fields not named by the request are kept, but skills come back as a fixed list; requested skills are stored and remembered, and fixing or leaving a fixed list forgets which were disabled |
| `UpdateLaws.BuiltinUpdateDefaults` | crates/aionui-assistant/src/service.rs:574-652 | the requested backend is in force, other state is kept, a change of backend resets the stored defaults, and what is left out then shows the preference |
| `UpdateLaws.BuiltinUpdateFields` | crates/aionui-assistant/src/service.rs:574-652 | nothing of a built-in row changes but the model and permission defaults, and its remembered skills stay |
| `UpdateLaws.BuiltinUpdateKeepsUnnamedIff` | crates/aionui-assistant/src/service.rs:574-652 | a field left out resolves as before iff the backend stays or its default, where fixed, was also the preference |
| `UpdateLaws.BackendChangeKeepsWhatIsResolvedIff` | crates/aionui-assistant/src/service.rs:618-646 | a change of backend without defaults clears the stored ones, and leaves the model and the permission in effect iff they had not strayed |
| `UpdateLaws.StatesAreOneStateIff` | crates/aionui-assistant/src/service.rs:887-945 | on any id, a sequence of state requests is one request with the later values iff there is only one or the assistant is not a withdrawn built-in one with a legacy row |
| `UpdateLaws.WithdrawnAssistantsTellApart` | crates/aionui-assistant/src/service.rs:887-945 | for those the second request is not found while the merged one succeeds |
| `StorageWitnesses.WithdrawnIsReachable` | crates/aionui-assistant/src/service.rs:102-183 | a failed start under a newer release and a return to the older one lead there |
| `UpdateLaws.StateKeepsBackend` | crates/aionui-assistant/src/service.rs:887-945 | no state request changes the backend in force or another assistant; a failing one changes nothing |
| `ProfileRuns.MaterializeKeepsInv` | crates/aionui-assistant/src/profile_compiler.rs:104-250 | storing and compiling a profile keeps the invariant, whether compilation succeeds or not |
| `ProfileRuns.CompileFits` | crates/aionui-assistant/src/profile_compiler.rs:104-157 | the write clashes iff the profile has no live row and its key was used before |
| `ProfileLaws.CompilingAgainWritesNothing` | crates/aionui-assistant/src/profile_compiler.rs:104-215 | a second compilation of the same profile writes nothing, whatever the first did |
| `ProfileLaws.GeneratedRowsMatchProfiles` | crates/aionui-assistant/src/profile_compiler.rs:104-250 | after every history each live generated row is the only one of its profile, which is active and wants it: title as name and description, backend aionrs, the soul as inline rule, primary model, skills and mcps fixed to those of the profile |
| `ProfileLaws.StoredProfilesAreValid` | crates/aionui-app/src/router/profiles.rs:116-218 | every stored profile names only known engines, at least one, and a model that is not blank |
| `ProfileLaws.CompileOutcomes` | crates/aionui-assistant/src/profile_compiler.rs:104-178 | for each outcome of the compiler exactly when it comes about, and the row it leaves on the fields of the profile |
| `ProfileLaws.WantedProfileHasAssistantIff` | crates/aionui-assistant/src/profile_compiler.rs:104-157 | a profile that wants an assistant has one iff the row of its key is live and still generated |
| `ProfileLaws.CompilingYieldsAssistantIff` | crates/aionui-assistant/src/profile_compiler.rs:104-157 | compiling yields an assistant iff there was one or the key is fresh, and keeps its definition id |
| `ProfileLaws.DeactivationIsForGood` | crates/aionui-assistant/src/profile_compiler.rs:159-178 | a profile deactivated once never has an assistant again, in any later history |
| `ProfileLaws.RetiredProfilesStayWithout` | crates/aionui-app/src/router/profiles.rs:168-239 | the same for any profile whose row was marked |
| `ProfileLaws.NamesStay` | crates/aionui-app/src/router/profiles.rs:116-239 | no history renames a profile or uses its number again |
| `ProfileLaws.DefinitionIdsNeverChange` | crates/aionui-assistant/src/profile_compiler.rs:138-156 | while a profile has an assistant its definition id never changes |
| `ProfileLaws.GeneratedAssistantsAreOutOfReach` | crates/aionui-assistant/src/profile_compiler.rs:22-35 | update, delete and set_state on a generated assistant find nothing and write nothing |
| `ProfileLaws.CreateTakesOverGeneratedRow` | crates/aionui-assistant/src/service.rs:1340-1366 | creating under the key of a generated assistant takes its row over, after which its profile cannot be compiled |
| `StorageWitnesses.ReactivatedProfileHasNone` | crates/aionui-app/src/router/profiles.rs:168-218 | from an empty database: a profile created, deactivated and activated wants an assistant and has none |
| `StorageWitnesses.GeneratedRowIsTaken` | crates/aionui-assistant/src/service.rs:1340-1366 | from an empty database: a user assistant takes the row of a generated one |
| `Visibility.IsProfileVisibleToUser` | crates/aionui-assistant/src/profile_visibility.rs:90-118 | the first lookup that grants or fails, the user's own before the roles in order |
| `Visibility.FilterVisibleAssistants` | crates/aionui-assistant/src/profile_visibility.rs:27-83 | the memoised loop with its fast paths equals asking afresh per item, and asks for each profile at most once |
| `Visibility.FilteredIsVisible` | crates/aionui-assistant/src/profile_visibility.rs:27-118 | when lookups do not fail it is the order-preserving filter "not generated, or admin, or granted" |
| `Visibility.VisibleIsMonotone` | crates/aionui-assistant/src/profile_visibility.rs:90-118 | more grants or roles never hide anything |
| `Visibility.GeneratedAssistantsAreGated` | crates/aionui-assistant/src/profile_visibility.rs:35-46 | in every history a generated assistant is seen only by admins and grantees of its profile, any other by everybody |
| `AssistantTablesInPlace.Assistants.SyncPreferencesFromDefaults` | crates/aionui-assistant/src/service.rs:703-846 | the field-by-field update computes the synced preference |
| `AssistantTablesInPlace.Assistants.CreateAssistant` | crates/aionui-assistant/src/service.rs:517-570 | valid tables stay valid; each error is given exactly when the request, the legacy row of the id or its marked definition is in the way; otherwise a live user assistant with name, description, backend, prompts, skills and defaults of the request, its fixed defaults remembered |
| `AssistantTablesInPlace.Assistants.UpdateAssistant` | crates/aionui-assistant/src/service.rs:572-701 | each error is given exactly when stated, and changes nothing; otherwise what the assistant then resolves, the same as before if no defaults are named and nothing had strayed, and its fields; a built-in one runs on the requested backend and keeps what was shipped |
| `AssistantTablesInPlace.Assistants.DeleteAssistant` | crates/aionui-assistant/src/service.rs:848-885 | succeeds iff a user assistant has a legacy row; then the id is marked for ever, its overlay and preference are gone, and nothing of any other id changes; a failing delete changes nothing |
| `AssistantTablesInPlace.Assistants.SetAssistantState` | crates/aionui-assistant/src/service.rs:887-945 | succeeds iff the assistant exists; its state is what the request names and otherwise what it was, its backend stays, and so does every other assistant |
| `AssistantTablesInPlace.Assistants.BootstrapStorage` | crates/aionui-assistant/src/service.rs:102-208 | succeeds iff no key to write is blocked, and then shows every shipped assistant as shipped and every legacy one as it was; finished or not, overlays are kept and an assistant resolves differently iff it was rewritten and had strayed |
| `AssistantTablesInPlace.Assistants.MaterializeRows` | crates/aionui-assistant/src/profile_compiler.rs:104-178 | the compiler in place: each outcome exactly when stated, and a compiled row has title, soul, model, skills and mcps of the profile in their own fields |
| `AssistantTablesInPlace.Assistants.AddProfile` | crates/aionui-app/src/router/profiles.rs:116-144 | the profile is stored as given, trimmed and active, or refused for the stated reason; it has an assistant iff it wants one and its key was never used, and that one is generated from it |
| `AssistantTablesInPlace.Assistants.EditProfile` | crates/aionui-app/src/router/profiles.rs:168-218 | what is named is edited, the name never; afterwards the profile has an assistant iff it wants one and had one or its key was never used, under the same definition id and generated from the edited profile |
| `AssistantTablesInPlace.Assistants.RemoveProfile` | crates/aionui-app/src/router/profiles.rs:220-239 | a removed profile leaves no generated assistant |
| `AssistantTablesInPlace.Assistants.ListAssistants` | crates/aionui-assistant/src/service.rs:413-453 | drops exactly the overrides of assistants that are gone, and changes nothing an assistant resolves |
| `AssistantTablesInPlace.Assistants.RememberConversation` | crates/aionui-conversation/src/service.rs:1205-1270 | open defaults of the assistant follow the choice and are remembered, each in its own field, the modes are recorded; fixed defaults and other assistants stay |
| `AssistantTablesInPlace.Assistants.ChooseForConversation` | crates/aionui-conversation/src/service.rs:1317-1455 | no row changes, the choice is remembered by the recorded modes, and a preference strays anew iff the choice overtakes a default fixed since |
| `Cookie.SessionCookieRoundTrip` | crates/aionui-auth/src/cookie.rs:30-37 | a printed session cookie, cut at its first semicolon and placed among malformed, other-named or empty parts, is read as exactly the token |
| `Cookie.TokenSurvivesIff` | crates/aionui-auth/src/extract.rs:68-82 | a token makes the trip iff it is non-empty, trimmed and free of semicolons |
| `Cookie.ExtractedIsPrintable` | crates/aionui-auth/src/extract.rs:68-82 | no header makes the reader return any other kind of token |
| `Cookie.ClearedCookieIsNone` | crates/aionui-auth/src/cookie.rs:40-46 | the cleared cookie reads as none |
| `Cookie.CsrfCookieIsQuiet` | crates/aionui-auth/src/cookie.rs:52-59 | the CSRF cookie does not disturb the session cookie |
| `Cookie.SessionCookieAuthenticates` | crates/aionui-auth/src/extract.rs:38-66 | the cookie's token is used iff there is no bearer token, and before any WebSocket protocol |
| `Cookie.BearerIff` | crates/aionui-auth/src/extract.rs:85-89 | exactly which header carries which bearer token |
| `Cookie.FirstProtocolAuthenticates` | crates/aionui-auth/src/extract.rs:50-66 | without bearer token and cookie a WebSocket upgrade authenticates by its first offered protocol, trimmed, if that is not empty |
| `Cookie.CookiesSpelled` | crates/aionui-auth/src/cookie.rs:13-59 | each cookie as it is sent: only the CSRF cookie is open to scripts, the cleared one expires at once, HTTPS makes all strict and secure |
| `Cookie.MaxAgeIsThirtyDays` | crates/aionui-auth/src/cookie.rs:30-37 | the age printed is thirty days in seconds |
| `Base64Url.DecodeEncode` | crates/aionui-auth/src/identity.rs:16-17 | decoding an encoding gives the bytes back, and no encoding has a dot |
| `Base64Url.EncodeDecode` | crates/aionui-auth/src/identity.rs:16-17 | whatever decodes is the one encoding of its bytes |
| `Base64Url.LettersAreTheAlphabet` | crates/aionui-auth/src/identity.rs:16-17 | the letters are the URL-safe alphabet of RFC 4648, in its order |
| `Base64Url.TestVectors` | crates/aionui-auth/src/identity.rs:16-17 | the first test vectors of RFC 4648, without padding |
| `IdentityToken.VerifyIssued` | crates/aionui-auth/src/identity.rs:93-138 | an issued token yields exactly its claims until it expires and nothing from then on |
| `IdentityToken.VerifyOkIff` | crates/aionui-auth/src/identity.rs:123-138 | the accepted strings are exactly the frames of an accepted payload and signature |
| `IdentityToken.OnlySignedTokensAreAccepted` | crates/aionui-auth/src/identity.rs:93-138 | if only own signatures check, they are exactly the signed frames of live claims |
| `IdentityToken.FrameIsInjective` | crates/aionui-auth/src/identity.rs:93-97 | the first dot always separates payload and signature |
| `IdentityToken.AcceptanceOnlyEnds` | crates/aionui-auth/src/identity.rs:134-137 | a token valid later was valid before with the same claims |
| `IdentityToken.IssuedForIsValidDuringItsTtl` | crates/aionui-auth/src/identity.rs:101-121 | a token issued for a span is accepted exactly during it, with user, roles, project, profile, scopes and number as issued |
| `RuleFiles.FileNamesAreInjective` | crates/aionui-assistant/src/service.rs:1858-1864 | names of ids of which neither continues the other behind a dot are equal iff ids and locales are, no locale counting as the empty one |
| `RuleFiles.CollideIff` | crates/aionui-assistant/src/service.rs:1858-1864 | two ids can share a file iff one continues the other behind a dot |
| `RuleFiles.DeletedForIff` | crates/aionui-assistant/src/service.rs:1872-1891 | a file of one id can be deleted for another iff one continues the other behind a dot |
| `RuleFiles.BelongsIff` | crates/aionui-assistant/src/service.rs:1872-1891 | for any ids and locale, for which ids one given file is deleted |
| `RuleFiles.DirectoryIsATable` | crates/aionui-assistant/src/service.rs:1090-1133 | over all sequences of writes and deletes whose ids keep apart from an id, dots or not, its rule is read as last written until its rules are deleted |
| `RuleFiles.TableLawFailsUnlessApart` | crates/aionui-assistant/src/service.rs:1090-1133 | for any two ids that do not keep apart there are locales for which this fails |
| `RuleFiles.RuleDirectory.WriteRule` | crates/aionui-assistant/src/service.rs:1108-1123 | user rules are written under their name, built-in ones refused |
| `RuleFiles.RuleDirectory.DeleteRule` | crates/aionui-assistant/src/service.rs:1126-1133 | exactly the files of the id are removed, in any directory order, and reported |
| `RuleFiles.RuleDirectory.ReadRule` | crates/aionui-assistant/src/service.rs:1090-1105 | the written text, empty if there is none, the shipped text for built-ins |
| `LogoPath.NormalizeLogoPath` | crates/aionui-assets/src/service.rs:59-78 | the loop over components computes the normal form or refuses |
| `LogoPath.AcceptedIff` | crates/aionui-assets/src/service.rs:59-78 | exactly which paths are accepted |
| `LogoPath.NormalizeIsIdempotent` | crates/aionui-assets/src/service.rs:59-78 | the normal form is a fixed point and splits back into clean names |
| `LogoPath.CleanPathsAreFixed` | crates/aionui-assets/src/service.rs:66-77 | joined clean names normalise to themselves |
| `LogoPath.NormalizedAlikeIff` | crates/aionui-assets/src/service.rs:59-78 | two accepted paths normalise alike iff they have the same names |

## Left out

- CacheMirrorsTable: speaks of ids not written since their copy was read, because reading the table and swapping the cache are separate steps; `HydrationLosesAnOption` shows that no more holds.
- VerifyIssued: JSON and the signature scheme are parameters with stated laws; `exp` is unbounded, so overflow of `now + ttl` is not modelled.
- DirectoryIsATable: file names are flat, so ids or locales with a slash are not modelled; failing reads and deletes of files are not either.
- ChooseInConversation: goes by the recorded snapshot of the conversation; conversations from before snapshots were recorded, which fall back to the assistant or to their own JSON, are not modelled.
- SetAssistantState: one request at a time; the methods of the assistant service are not interleaved with each other.
- `active_count` and `collect_idle`: they only read the map.
- The remaining registry lookups and the summaries: filters over the cache.
- `apply_handshake` in the database reads and writes its row in one step.
- The shape of a stored configuration option value beyond its option list, and how modes and models are derived from it (parameters of the model).
- Fields that are only copied: avatars, translations, models, custom and disabled skill columns of a definition, time stamps, the list order of assistants.
- Database errors other than unique violations, JSON text, and white space outside ASCII.
- A generated user id (an id is a parameter) and a second request racing into the legacy table.
- Profile fields the compiler does not read, and their schema checks.
- The client address, the entity tag and the content type: one expression each.

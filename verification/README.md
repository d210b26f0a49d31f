# Verification of the Foundry command pipeline

This project models how the Python side of the AI Dungeon Master drives a Foundry VTT world, and proves what the
pipeline promises. `dafny verify dfyconfig.toml` checks all of it.

| file | models |
|---|---|
| `Batch.dfy`, `Inverter.dfy`, `World.dfy`, `Commands.dfy` | transactional batches: snapshots, inverses, rollback in reverse, over a world of scenes, tokens, actors and the active scene |
| `Effects.dfy` | what each command leaves behind in the world, as it is read afterwards |
| `Registry.dfy`, `Validator.dfy` | the alias registry and the rewriting of aliases to ids |
| `Standing.dfy`, `Acceptance.dfy` | the registry against the world, and what the validator's word is worth to the rollback and to Foundry |
| `Dotted.dfy`, `Paths.dfy`, `Trees.dfy` | patches with dotted keys, and the recursive overlay of documents and catalogs |
| `Relay.dfy`, `SeenFilter.dfy` | clients, relay and browser tabs, with the duplicate filters and the cache of results |
| `Client.dfy`, `Queue.dfy` | request and response correlation, and the serial queue of each scope |
| `Authority.dfy`, `Echoes.dfy` | the arbiter of inbound changes and the loop it closes with its own corrective writes |
| `Formation.dfy`, `Placement.dfy` | the formation spiral, and where a moved token ends up |
| `JsonScan.dfy`, `JsonRepair.dfy`, `JsonText.dfy` | the scan for a JSON object in a reply and the repair of trailing commas, against RFC 8259, sections 2, 4, 5 and 7 |
| `Text.dfy`, `Sequences.dfy`, `Wrappers.dfy` | strings as the two languages treat them; windows on sequences; optional values |

What the source changes step by step is a class or a method with a loop here, proved equal to a function on values;
the theorems are about these functions, and about runs of state machines whose steps they are.

## Where the code differs from what one might expect

- `move_token` acts on the current scene and ignores `scene_id`; its undo is right exactly when the snapshot was read
  from that scene or the token did not move (`Inverter.MoveTokenUndone`).
- `create_scene`, `create_actor` and `spawn_token` may return an entity that was there; undoing then deletes it
  (`Inverter.StepUndoneIff`).
- The registry update after a success stands outside the `try`; an alias clash leaves the batch without rollback, exactly
  when `Batch.OutcomeIff` says (`Batch.EscapeKeepsEffects`, `Batch.ClashLeavesBoth`).
- A batch that deletes what is registered leaves the entry behind (`Standing.NextStandsIff`).
- Registering a known token under another scene leaves its old slots in the index (`Registry.RegisterAgreesIff`).
- `deep_merge` fails to be associative when a non-dict stands between two dicts, unless the last dict restates the first
  (`Trees.MergeAssociative`).
- Clamping to the scene can put two party members on one place (`Placement.PartyStacksIff`, `Placement.ClampingCanStack`).
- That a tab runs a request once rests on the relay's filter: the tab's own check is made before it awaits the execution
  (`Relay.CopyWhileRunningIff`, `Relay.TwiceWhileRunning`).
- A result can be counted as matched and its caller still time out (`Client.MatchedReachesIff`, `Client.HandedTooLate`,
  `Client.MatchedButTimedOut`).
- Validating `highlight_object` twice can change its target (`Validator.HighlightedTwiceIff`).
- The allow-list entries `name` and `img` have no final dot and so let through every key that begins with them
  (`Validator.AllowedIffRooted`).
- In the application only absorbing ever fills what is known of tokens and of the scene, so that under the policy `revert`
  neither a token move nor an activation is reverted (`Authority.NothingKnownNothingReverted`).
- Once its fingerprint is forgotten, the echo of a corrective move, and of no other correction, is answered with the same
  move, without end if the echoes are late (`Authority.EchoCorrectsIff`, `Authority.EndlessCorrections`).
- The validator accepts moves that Foundry always refuses: a negative distance, a direction that does not exist
  (`Acceptance.AcceptedMoveRefusedIff`).

## Model

| member | source | states |
|---|---|---|
| `Batch.RollbackRestores` | src/ai_dm/foundry/batch_executor.py:190-268 | for every batch that goes wrong at a step without effect, after steps that were reversible (snapshot read, creations fresh, updated keys present, aliases free, inverses answered): the world and the registry, entries and all alias indexes, are as before the batch; a step that runs only after the rollback is all that remains of it |
| `Batch.RollbackRestoresIff` | src/ai_dm/foundry/batch_executor.py:326-345 | when all later steps are reversible, the rollback restores the world if and only if the first step was undoable |
| `Batch.ReversiblePrefix` | src/ai_dm/foundry/batch_executor.py:331-341 | undoing in reverse order makes a run of reversible steps before the failing one come to nothing, whatever was done before them |
| `Batch.UndoOfNext` | src/ai_dm/foundry/batch_executor.py:331-341 | the inverse of a reversible step, run right after it, gives back the world and the registry |
| `Batch.RegistryTakenBack` | src/ai_dm/foundry/batch_executor.py:354-391 | unregistering on rollback takes back what the success registered, when the created id was unknown and no alias clashed; other steps leave the registry alone |
| `Batch.InverseUnregisters` | src/ai_dm/foundry/batch_executor.py:385-391 | the inverse of a creation unregisters exactly the id that the creation registered; no other inverse touches the registry |
| `Batch.OutcomeIff` | src/ai_dm/foundry/batch_executor.py:190-268 | for every batch: it completes exactly when every step succeeds, and the exception escapes it exactly when, after steps that succeed, a step is answered with success whose registration has bad arguments or an alias that another id holds |
| `Batch.EscapeKeepsEffects` | src/ai_dm/foundry/batch_executor.py:256-261 | where the exception escapes, every step's effect stays in place and nothing is rolled back, also in an atomic batch |
| `Batch.CompleteKeepsEffects` | src/ai_dm/foundry/batch_executor.py:190-268 | a batch whose steps all succeed reports all of them and ends with all their effects, in the world and in the registry |
| `Batch.NonAtomicKeepsEffects` | src/ai_dm/foundry/batch_executor.py:227-254 | a batch that is not atomic is never rolled back: after the first step that does not work, world and registry are those after the steps before it, and the world has at most that step's effect besides; nothing is reported as rolled back or as an error |
| `Batch.AtomicSubmitsInverses` | src/ai_dm/foundry/batch_executor.py:326-345 | of an atomic batch whose step k is the first that does not work: the inverses of the steps before it that have one are submitted, the last step's first, on top of what there is by then; those answered are reported in that order, the others counted as errors |
| `Batch.RollbackSubmits` | src/ai_dm/foundry/batch_executor.py:326-345 | what a rollback does, for any list of successes: the reversed list of their inverses, submitted one after the other, and the report of it |
| `Batch.UnansweredUndoNothing` | src/ai_dm/foundry/batch_executor.py:336-345 | inverses that are not answered leave the registry as it is, and those that do not run either leave the world |
| `Batch.CreatedIsFound` | src/ai_dm/foundry/batch_executor.py:354-383 | after a creation that succeeds, the returned id is an entry of its kind with the document's name, or else the command's, a token under the command's scene; and the scene's name, the actor's name and aliases, and the token's name under its scene each resolve to that id, unless blank or themselves ids |
| `Batch.ClashLeavesBoth` | src/ai_dm/foundry/batch_executor.py:256-261 | an atomic batch of two creations whose second alias is taken: both actors stay |
| `Batch.RegistersIff` | src/ai_dm/foundry/batch_executor.py:354-383 | the registration of a success raises nothing exactly when its arguments are good and no alias is held by another id, in whatever order the set is walked |
| `Batch.NextSound` | src/ai_dm/foundry/batch_executor.py:354-383 | a reversible step keeps the world well-formed and the registry in agreement |
| `Batch.BatchExecutor.DoExecute` | src/ai_dm/foundry/batch_executor.py:190-268 | the loop over the commands, with snapshot, submission, rollback and registry update, equals the run that the theorems are about |
| `Batch.BatchExecutor.DoRollback` | src/ai_dm/foundry/batch_executor.py:326-345 | the loop over the successes in reverse equals the recursive rollback, with what it reports as rolled back and as errors |
| `Batch.BatchExecutor.Undo` | src/ai_dm/foundry/batch_executor.py:336-345 | one inverse is submitted; only an answer, of success or failure alike, updates the registry |
| `Batch.BatchExecutor.UpdateRegistryAfterSuccess` | src/ai_dm/foundry/batch_executor.py:354-383 | which id, name, aliases and scene a success registers |
| `Batch.BatchExecutor.UpdateRegistryAfterRollback` | src/ai_dm/foundry/batch_executor.py:385-391 | which id an inverse unregisters |
| `Inverter.StepUndoneIff` | src/ai_dm/foundry/batch_executor.py:66-160 | for every command whose effect is modelled, when it succeeds in a proper world with its snapshot answered: its inverse restores the world if and only if the condition listed for its type held before it |
| `Inverter.OtherStepUndone` | src/ai_dm/foundry/batch_executor.py:145-160 | a command without an inverse leaves the world as it was exactly when, being a deletion, it found nothing to delete |
| `Inverter.MoveTokenUndone` | foundry/module/scripts/token_commands.js:25-55 | a move acts on the current scene whatever its `scene_id`; its inverse restores the world exactly when the snapshot was read from the current scene or the token did not move |
| `Inverter.ActivateUndone` | foundry/module/scripts/scene_commands.js:1-15 | an activation is taken back exactly when a scene was active and on the canvas before |
| `Inverter.UpdateActorUndone` | src/ai_dm/foundry/batch_executor.py:77-86 | an actor update is taken back exactly when every key led to a value and brought no new key below it, where a key that is not read back must have led to what it reads as |
| `Inverter.SnapshotReads` | foundry/module/scripts/actor_commands.js:191-203 | what any key reads as in the `read_actor` snapshot: what the actor holds there for the fields that are sent, its id, or null |
| `Inverter.CreateSceneUndone` | foundry/module/scripts/scene_commands.js:17-59 | deleting the returned scene restores the world exactly when no scene had the name |
| `Inverter.CreateActorUndone` | foundry/module/scripts/actor_commands.js:47-98 | deleting the returned actor restores the world exactly when no actor had that name and type |
| `Inverter.SpawnUndone` | foundry/module/scripts/token_commands.js:440-527 | deleting the returned token restores the world exactly when the scene had no token of that actor or name |
| `Inverter.ResolvesAsBefore` | foundry/module/scripts/token_commands.js:4-12 | changing a scene's tokens does not change how scenes are resolved |
| `Inverter.UnreadHasNoInverse` | src/ai_dm/foundry/batch_executor.py:66-160 | a command whose snapshot was not answered has an inverse exactly when it is a creation that returned an id |
| `World.FailureChangesNothing` | foundry/module/scripts/socket_bridge.js:136-293 | a modelled command that reports failure has changed nothing |
| `World.ProperKept` | foundry/module/scripts/socket_bridge.js:136-293 | every modelled command that does not delete keeps ids non-empty, tokens in one scene each, and the scenes on show existing |
| `Effects.Spawned` | foundry/module/scripts/token_commands.js:440-527 | a spawn succeeds exactly where scene and actor are found; the token it returns is the oldest on the scene of that actor or name, playable by now if the actor is a character, or else a new one with that actor, the given or the actor's name, and the ordered place, where `read_token` finds it; nothing else changes |
| `Effects.Moved` | foundry/module/scripts/token_commands.js:25-55 | a move succeeds exactly for a token on the current scene, which is then read at the ordered place; its other data and all else stay |
| `Effects.SceneCreated` | foundry/module/scripts/scene_commands.js:17-59 | the oldest scene of exactly that name is returned with the new width, height and grid and its tokens kept, or else a new one with these and without tokens; nothing else changes |
| `Effects.Activated` | foundry/module/scripts/scene_commands.js:1-15 | the scene of that id, or else the oldest of exactly that name, is active and on the canvas afterwards and is what is read as the active scene; it fails exactly where there is none |
| `Effects.ActorCreated` | foundry/module/scripts/actor_commands.js:47-98 | the oldest actor of that type and name, whatever its case, is returned, patched and with the image, or else a new one; the reply has the name the actor has then, and no other actor changes |
| `Effects.NewActorIs` | foundry/module/scripts/actor_commands.js:76-84 | of a new actor every key of a prefix-free `system` patch reads back, where such keys begin nothing else stands, and otherwise there are the command's name, type and image and nothing more |
| `Effects.SyncedActorIs` | foundry/module/scripts/actor_commands.js:54-69 | on an existing actor each key's value is laid over what was there, the image is the command's if it gives one, and all paths apart from the keys stay as they were |
| `Effects.ActorUpdated` | foundry/module/scripts/actor_commands.js:123-130 | an update succeeds exactly where the actor is found, lays each key's value of a prefix-free patch over what was there, and changes no other path and no other actor |
| `Effects.Deleted` | foundry/module/scripts/socket_bridge.js:258-268 | a deletion takes exactly the named document away and succeeds also where there is none, save for a token whose scene is not found; a deleted scene is no longer active nor on the canvas |
| `Effects.ActorMeant` | foundry/module/scripts/token_commands.js:15-23 | an actor is meant by its id, or else by its name whatever its case, the oldest first; the empty reference means none |
| `Effects.SceneMeant` | foundry/module/scripts/token_commands.js:4-12 | a scene is meant by its id, or else by its name whatever its case, the oldest first; no reference means the current scene |
| `Registry.RunAgrees` | src/ai_dm/foundry/registry.py:52-114 | in every reachable registry, also after registrations that raised partway with the aliases taken in any order, scene and actor indexes agree both ways with the entries; tokens too if none was registered under another scene |
| `Registry.RegisterAgreesIff` | src/ai_dm/foundry/registry.py:70-92 | a registration breaks the agreement of a kind exactly when it moves a token that holds a non-blank alias to another scene |
| `Registry.AddAliasAgrees` | src/ai_dm/foundry/registry.py:94-105 | adding an alias keeps the agreement, also when it is refused |
| `Registry.UnregisterAgrees` | src/ai_dm/foundry/registry.py:107-114 | unregistering keeps the agreement |
| `Registry.UnregisterUndoesRegister` | src/ai_dm/foundry/registry.py:52-114 | unregistering takes back the registration of an unknown id, entries and indexes alike |
| `Registry.AddAllEnters` | src/ai_dm/foundry/registry.py:88-90 | a registration without a clash enters exactly the listed aliases, in whatever order they come |
| `Registry.ResolveIsLive` | src/ai_dm/foundry/registry.py:120-157 | what resolves is a live entry, and resolving it again in any scene gives it back |
| `Registry.RegisteredDoneIff` | src/ai_dm/foundry/registry.py:61-90 | `register` returns exactly when its arguments are good and no alias is held by another id beforehand; otherwise it raises |
| `Registry.AddAllDoneIff` | src/ai_dm/foundry/registry.py:88-90 | the aliases are all added exactly when none is taken beforehand, in whatever order they come |
| `Registry.RegisteredIsFound` | src/ai_dm/foundry/registry.py:52-92 | after a registration that raised nothing the entry has its name and scene, and each listed non-blank alias that is not itself an id resolves to it |
| `Registry.ResolveFindsAlias` | src/ai_dm/foundry/registry.py:130-157 | an entry is found under each of its non-blank aliases that is not itself an id |
| `Registry.ResolvesIff` | src/ai_dm/foundry/registry.py:120-157 | in a registry whose index agrees with its entries, a key resolves to an id exactly when it is that id; or else, for scenes and actors, when that entry goes by it; for tokens when the entry of the given scene goes by it or, where no token of that scene does, it is the only token anywhere that does |
| `Registry.NormalisedEqualIff` | src/ai_dm/foundry/registry.py:32-33 | two names are the same to the registry exactly when they are so without surrounding blanks and whatever the case of their letters A to Z |
| `Text.StripIs` | src/ai_dm/foundry/registry.py:32-33 | stripping takes the blanks at both ends away and nothing else |
| `Registry.FoundryRegistry.Register` | src/ai_dm/foundry/registry.py:52-92 | the new entries, the new index and the error, also when an alias is refused partway |
| `Registry.FoundryRegistry.AddAlias` | src/ai_dm/foundry/registry.py:94-105 | the new state and the error, with the clash check |
| `Registry.FoundryRegistry.Unregister` | src/ai_dm/foundry/registry.py:107-114 | the new state: the entry gone and every slot of its aliases removed, in any order of the set |
| `Trees.MergeAssociative` | src/ai_dm/app/catalog_loader.py:72-86 | `deep_merge` is associative on three trees exactly when nowhere a non-dict in the middle cuts a dict of the first off from a dict of the last that does not restate it |
| `Trees.MergeIdentity` | src/ai_dm/app/catalog_loader.py:72-86 | the empty dict is a two-sided identity |
| `Trees.MergeHides` | src/ai_dm/app/catalog_loader.py:72-86 | merging hides all of the base exactly when the overlay restates every dict key path of it |
| `Trees.MergeBack` | src/ai_dm/app/catalog_loader.py:72-86 | laying the old document back over the merged one gives it back exactly when the new one added no key |
| `Trees.DeepMerge` | src/ai_dm/app/catalog_loader.py:72-86 | the loop over the overlay's items, in any order, computes the recursive overlay |
| `Dotted.ExpandReadsBack` | foundry/module/scripts/actor_commands.js:18-45 | for a prefix-free patch, `_dotted_get` on the expansion gives each key's own value |
| `Dotted.ExpandAnyOrder` | foundry/module/scripts/actor_commands.js:18-45 | the expansion of a prefix-free patch does not depend on the order of its entries |
| `Dotted.PrefixFreeOnKeys` | src/ai_dm/foundry/batch_executor.py:404-413 | a patch is prefix-free exactly when no key, as written, is another or continues it after a dot |
| `Dotted.CoversIsPathPrefix` | foundry/module/scripts/actor_commands.js:35-42 | one key's path begins another's exactly when the keys are equal or the other continues it after a dot |
| `Dotted.ExpandFree` | foundry/module/scripts/actor_commands.js:35-42 | a place that no entry touches stays free in the expansion |
| `Dotted.LastEntryReads` | foundry/module/scripts/actor_commands.js:18-45 | of any patch, also one whose keys lead through each other, the last dotted key reads back and takes away nothing that stands apart from it |
| `Dotted.ExpandKeys` | foundry/module/scripts/actor_commands.js:18-45 | the expansion has the first parts of the keys as its top-level keys, and no others |
| `Dotted.UpdateUndoneIff` | src/ai_dm/foundry/batch_executor.py:77-86 | updating with a prefix-free patch and then with the values read before restores the document exactly when each key led to a value and brought no new key below it |
| `Dotted.UpdateBackIff` | src/ai_dm/foundry/batch_executor.py:404-413 | two updates with the same keys restore the document exactly when the value at each key is restored |
| `Dotted.UndoneAt` | src/ai_dm/foundry/batch_executor.py:404-413 | what stands at each key after an update and its undo |
| `Dotted.UpdateElsewhere` | foundry/module/scripts/actor_commands.js:123-130 | an update leaves every path apart from its keys as it was |
| `Dotted.ExpandDotted` | foundry/module/scripts/actor_commands.js:18-45 | the loop over the entries computes the expansion |
| `Dotted.WalkAndSet` | foundry/module/scripts/actor_commands.js:35-42 | the inner loop, which makes an object at each step of the way and moves its reference into it, writes the value at the path |
| `Paths.MergedCommute` | foundry/module/scripts/actor_commands.js:35-42 | writes at paths apart from each other commute |
| `Paths.WriteBack` | src/ai_dm/foundry/batch_executor.py:404-413 | two writes at one path leave the tree as it was when they leave the value there as it was |
| `Relay.AtMostOnce` | src/ai_dm/foundry/ws_relay_server.py:172-213 | in every run of clients, relay and tabs, with copies, losses, reconnects and reloads: if fewer than `size` other ids reach the relay between two copies of a request, each tab executes it at most once; likewise each client is sent at most one result for it |
| `Relay.AskReaches` | src/ai_dm/foundry/ws_relay_server.py:172-197 | in every run: a request is handed to every connected tab exactly when it has an id that was never asked before or at least `size` others were asked since; nobody else is handed or sent anything |
| `Relay.AnswerReaches` | src/ai_dm/foundry/ws_relay_server.py:199-213 | in every run: a result that a connected tab has under way is sent to every connected Python client, once more each, exactly when it has an id that was never answered or at least `size` others were answered since; nobody else is sent anything |
| `Relay.PushReaches` | src/ai_dm/foundry/ws_relay_server.py:215-243 | in every run: an event of a Python client reaches every connected tab, an event of a tab every connected Python client, and nobody else, exactly when its id, or the one made up for it, is unknown in that sense |
| `Relay.RequestIsServed` | src/ai_dm/foundry/ws_relay_server.py:172-213 | from the request to the result, in every run: after an unknown request was asked, taken by a connected GM tab, executed unless its result is still cached, and answered, every connected client was sent the result exactly when the relay did not know it |
| `Relay.TakenUp` | foundry/module/scripts/socket_bridge.js:353-388 | in every run: a GM tab that takes a request puts the cached result under way if it finished the request and fewer than 512 others since, and begins an execution otherwise; other tabs drop it |
| `Relay.FinishedGoesOut` | foundry/module/scripts/socket_bridge.js:386-394 | a tab that ends an execution puts its result under way |
| `Relay.ConnectedIff` | src/ai_dm/foundry/ws_relay_server.py:71-119 | in every run, connected on either side are exactly those who said hello as such and did not leave since |
| `Relay.FiltersCopiesIff` | src/ai_dm/foundry/ws_relay_server.py:250-258 | a filter lets no id through twice exactly when fewer than `size` other ids come between successive copies |
| `Relay.CopyAfterFinishIff` | foundry/module/scripts/socket_bridge.js:378-393 | in every run, a GM tab that receives a copy of a request it finished executes it again exactly when it finished at least 512 other requests since |
| `Relay.CopyWhileRunningIff` | foundry/module/scripts/socket_bridge.js:378-393 | in every run, when an id is asked again: each connected tab gets the copy exactly when at least `size` other ids were asked since, and a GM tab that takes it begins an execution exactly when it did not finish the request or finished 512 others since, whether or not it is executing it |
| `Relay.TwiceWhileRunning` | foundry/module/scripts/socket_bridge.js:378-393 | for every size of the filter, a run in which a tab executes one request twice at the same time |
| `Relay.RunKeeps` | src/ai_dm/foundry/ws_relay_server.py:130-213 | every run keeps the filters and caches in step with the histories, and at most one copy of each asked id with or executed by a tab |
| `Relay.RelayServer.HandleMessage` | src/ai_dm/foundry/ws_relay_server.py:130-213 | what each command, batch, result and event does to the three filters and to whom it is forwarded, with the duplicate, missing-id and unsupported replies |
| `Relay.RelayServer.Register` | src/ai_dm/foundry/ws_relay_server.py:71-77 | a `hello` adds the connection to the clients of its type, and to the game masters if it says so |
| `Relay.RelayServer.Drop` | src/ai_dm/foundry/ws_relay_server.py:113-119 | a lost or wedged connection is in none of the sets of clients |
| `Relay.Bridge.OnRequest` | foundry/module/scripts/socket_bridge.js:353-384 | a request is ignored, answered from the cache with the cached result, or executed |
| `Relay.Bridge.OnExecuted` | foundry/module/scripts/socket_bridge.js:391-393 | the result is remembered as the newest |
| `SeenFilter.FilterHoldsNewest` | src/ai_dm/foundry/ws_relay_server.py:250-258 | after any marks the filter holds exactly the most recently marked distinct ids, in order of their last mark |
| `SeenFilter.SeenIff` | src/ai_dm/foundry/ws_relay_server.py:250-258 | a mark reports `seen` exactly when the id was marked before and fewer than `size` distinct ids since |
| `SeenFilter.NotSeenIfNew` | src/ai_dm/foundry/ws_relay_server.py:250-258 | an id that was never marked is not reported seen |
| `SeenFilter.MarkNewest` | src/ai_dm/foundry/ws_relay_server.py:250-258 | marking a window of the newest ids is marking the whole list and taking its window |
| `SeenFilter.RelayFilter.MarkSeen` | src/ai_dm/foundry/ws_relay_server.py:250-258 | the new order of the ids and whether the id was among them, never more than `size` |
| `SeenFilter.ProcessedResults.Remember` | foundry/module/scripts/socket_bridge.js:106-115 | the id is the newest, its result is kept, the others keep theirs, and the oldest beyond the limit are gone |
| `Client.LeavesOnce` | src/ai_dm/foundry/client.py:161-197 | in every interleaving of sends, results, timeouts and connection losses, a request id leaves `_pending` at most once and at most one result is matched with it |
| `Client.ReturnedIsOwn` | src/ai_dm/foundry/client.py:161-197 | a response returned to a caller is the result with its own id, or the connection-lost error; the former exactly when a result was matched |
| `Client.ReturnedArrived` | src/ai_dm/foundry/client.py:262-290 | a result returned to a caller has the body of a message that arrived under its id while the request was pending, and the error is that of a connection lost while it was |
| `Client.TimeoutsTell` | src/ai_dm/foundry/client.py:187-194 | the timeouts counted are exactly the requests that ended in one |
| `Client.ReceivedAddsUp` | src/ai_dm/foundry/client.py:271-282 | `received` is the matched results plus `duplicates` plus `orphans` |
| `Client.DuplicateIff` | src/ai_dm/foundry/client.py:275-286 | a result for an id that is not pending counts as a duplicate exactly when the id is among the last 512 matched |
| `Client.WaitingIsServed` | src/ai_dm/foundry/client.py:187-197 | a caller that waits while its id is not pending can be handed its own response and return it |
| `Client.EndedStays` | src/ai_dm/foundry/client.py:161-197 | how a request ended is never changed by later steps |
| `Client.MatchedReachesIff` | src/ai_dm/foundry/client.py:187-197 | in every run, a matched result can still reach its caller, or has, exactly when the caller's wait did not time out and its send did not raise |
| `Client.GivingUpIff` | src/ai_dm/foundry/client.py:187-194 | in every run, a caller whose wait timed out has a matched result or a lost connection's error exactly when its id is no longer pending, and times out all the same |
| `Client.HandedTooLate` | src/ai_dm/foundry/client.py:284-286 | a run in which the result is matched while the caller waits, handed over after the wait, and the caller times out |
| `Client.MatchedButTimedOut` | src/ai_dm/foundry/client.py:187-194 | a result that arrives between the end of the wait and the lock counts as matched although the caller times out |
| `Client.RunKeeps` | src/ai_dm/foundry/client.py:161-290 | the invariant behind these, kept by every step |
| `Client.FoundryClient.Match` | src/ai_dm/foundry/client.py:271-286 | which pending request, if any, a result is for, and the new table and counters |
| `Client.FoundryClient.LoseConnection` | src/ai_dm/foundry/client.py:250-260 | every pending request is answered with the error and the table is empty |
| `Client.FoundryClient.Issue` | src/ai_dm/foundry/client.py:169-178 | the request is pending and has no response |
| `Client.FoundryClient.Withdraw` | src/ai_dm/foundry/client.py:180-190 | the request is no longer pending; a timeout is counted |
| `Queue.EnqueuedIff` | src/ai_dm/foundry/command_queue.py:122-165 | who is refused and why, and that an accepted request is late exactly when more than its timeout has passed |
| `Queue.ServedInOrder` | src/ai_dm/foundry/command_queue.py:122-192 | in every run and scope, the requests taken are the first accepted, in order, and the rest wait; those handed over ran to their end one after the other, with at most one in hand |
| `Queue.OnlyLateSkipped` | src/ai_dm/foundry/command_queue.py:175-184 | of the requests taken, exactly those whose deadline has passed are skipped |
| `Queue.NeverOverfull` | src/ai_dm/foundry/command_queue.py:156-162 | with a positive `max_pending`, no scope ever has more requests waiting |
| `Queue.EndsOnce` | src/ai_dm/foundry/command_queue.py:164-192 | the future of each accepted request is resolved at most once, namely when the request leaves the queue and its worker; accepted = completed + failed + expired + waiting + running |
| `Queue.CountersTell` | src/ai_dm/foundry/command_queue.py:130-192 | in every run the counters are how often a request was accepted, ran well, failed, was skipped as late, and was turned away for want of room |
| `Queue.FuturesTell` | src/ai_dm/foundry/command_queue.py:175-192 | what each step does to each future: the one of the request in hand becomes completed or failed as the step says, that of a late request expired, and no other changes |
| `Queue.StopsIffShut` | src/ai_dm/foundry/command_queue.py:168 | in every run a worker has stopped only after the shutdown, and one that comes back to the top of its loop then stops, whatever still waits |
| `Queue.StepKeepsOrder` | src/ai_dm/foundry/command_queue.py:167-192 | each step of the worker or of a caller keeps the order |
| `Queue.StepKeepsResolved` | src/ai_dm/foundry/command_queue.py:164-192 | each step keeps a ticket either held once with its future open or resolved once |
| `Queue.SerialCommandQueue.Enqueue` | src/ai_dm/foundry/command_queue.py:122-165 | acceptance with a deadline, or the refusal after shutdown or when the scope is full, and the counters |
| `Queue.SerialCommandQueue.Check` | src/ai_dm/foundry/command_queue.py:168 | the worker stops exactly after shutdown |
| `Queue.SerialCommandQueue.Poll` | src/ai_dm/foundry/command_queue.py:169-184 | the first waiting request is taken, and expired or put in hand |
| `Queue.SerialCommandQueue.Finish` | src/ai_dm/foundry/command_queue.py:186-192 | the request in hand is resolved and counted |
| `Authority.CorrectionsBounded` | src/ai_dm/foundry/authority.py:246-347 | over every run in which no fingerprint expires or is evicted, corrective commands never exceed outside changes, also when an outside change uses up a fingerprint meant for an echo |
| `Authority.HappenKeepsCredit` | src/ai_dm/foundry/authority.py:246-347 | each happening keeps: corrections sent + outside events pending + echoes not covered by a primed fingerprint <= outside changes received |
| `Authority.LoopSettles` | src/ai_dm/foundry/authority.py:246-347 | once outside changes and own writes cease, the exchange of corrections and echoes ends within a computed number of arrivals |
| `Authority.CorrectionRepeatsAbsorbed` | src/ai_dm/foundry/authority.py:276-338 | what a correction puts back is what was absorbed last: its echo repeats the absorbed event |
| `Authority.OnlyAbsorbingLearns` | src/ai_dm/foundry/authority.py:246-300 | in every run, what Python knows of tokens, actors and the scene changes only under the policy that absorbs their events |
| `Authority.ArrivalTeaches` | src/ai_dm/foundry/authority.py:246-300 | an arriving event whose policy is to absorb, and that no live primed copy matches, leaves the token at its place and scene, the actor with the new hit points and name where they came and the old ones otherwise, or the scene with its id and name, and all else as before; any other event leaves what is known untouched, and nothing is sent unless the policy is to revert |
| `Authority.CorrectionTellsKnown` | src/ai_dm/foundry/authority.py:304-347 | a correction puts exactly one event under way, which says what Python knows of the token, the actor or the scene, and leaves its fingerprint primed and alive |
| `Authority.NothingKnownNothingReverted` | src/ai_dm/app/container.py:604-615 | in every run that starts with no token and no scene known, as in the application, no token move and no activation is ever reverted, whatever the policy |
| `Authority.ArrivalCorrectsIff` | src/ai_dm/foundry/authority.py:246-347 | an arriving event makes a correction be sent exactly when the policy is to revert it, there is a router, no live primed copy of its fingerprint remains, and what it changed is known otherwise |
| `Authority.EchoCorrectsIff` | src/ai_dm/foundry/authority.py:304-347 | the echo of a correction is answered with a further one exactly when it is a token move, reverted, and no live primed copy of it remains |
| `Authority.EndlessCorrections` | src/ai_dm/foundry/authority.py:55-80 | for every n, a run in which one outside change of a known token is followed by n corrections, each echo coming more than `ttl` after its write |
| `Authority.ForgottenEchoRepeats` | src/ai_dm/foundry/authority.py:65-80 | when the echo of a corrective move arrives after its fingerprint was forgotten, the same move is sent again |
| `Authority.EchoCarriesFingerprint` | src/ai_dm/foundry/authority.py:82-115 | the echo of a write carries the fingerprint the write was primed with |
| `Authority.FingerprintTellsChanges` | src/ai_dm/foundry/authority.py:103-119 | two events share their fingerprint exactly when they set the same token to the same place, the same actor to the same hit points or the same keys, or the same scene, if no bar is in the actor's id of an update without hit points |
| `Authority.TakenForEchoIff` | src/ai_dm/foundry/authority.py:82-119 | an event carries the fingerprint of a write exactly when it says what the write does |
| `Authority.PrimedIsLive` | src/ai_dm/foundry/authority.py:55-63 | what is primed is there and alive, whatever was before |
| `Authority.CorrectiveCovered` | src/ai_dm/foundry/authority.py:340-343 | a corrective write, primed once or twice, leaves no more echoes uncovered than before |
| `Authority.ConsumePrimed` | src/ai_dm/foundry/authority.py:65-76 | consuming, when nothing has expired, takes one primed copy if there is one |
| `Authority.InboundArbiter.Handle` | src/ai_dm/foundry/authority.py:246-272 | echo, ignored, absorbed or reverted: the verdict, the new state and the new fingerprints |
| `Authority.InboundArbiter.DoRevert` | src/ai_dm/foundry/authority.py:304-347 | the corrective write, if any, and its priming before and by the dispatch |
| `Authority.InboundArbiter.PrimeOutbound` | src/ai_dm/app/container.py:618-619 | every write that has a fingerprint is remembered |
| `Echoes.QueueRefinesLog` | src/ai_dm/foundry/authority.py:55-80 | over every run with a monotone clock, the deque answers each `consume` as a log of timed copies does: true exactly when an unconsumed, unevicted copy was remembered at most `ttl` ago |
| `Echoes.StepMirrors` | src/ai_dm/foundry/authority.py:55-80 | one operation answers as the log does, and the deque stays the live part of the log |
| `Echoes.GcIsComplete` | src/ai_dm/foundry/authority.py:78-80 | on a queue sorted by expiry, removing at the front removes exactly what has expired |
| `Echoes.LiveSorted` | src/ai_dm/foundry/authority.py:55-63 | the deque stays sorted by expiry |
| `Echoes.EvictDropsOldest` | src/ai_dm/foundry/authority.py:62-63 | eviction drops exactly the oldest live copies |
| `Echoes.TakeDropsFirst` | src/ai_dm/foundry/authority.py:72-75 | consuming drops the oldest live copy of the fingerprint |
| `Echoes.EchoSuppressor.Remember` | src/ai_dm/foundry/authority.py:55-63 | the deque after collecting, appending and evicting |
| `Echoes.EchoSuppressor.Consume` | src/ai_dm/foundry/authority.py:65-76 | the deque without the first copy, and whether there was one |
| `Echoes.EchoSuppressor.Collect` | src/ai_dm/foundry/authority.py:78-80 | the deque without its expired front |
| `Formation.OffsetOnRing` | foundry/module/scripts/token_commands.js:412-438 | index i lies on the square ring of radius r >= 1 exactly when (2r-1)^2 <= i < (2r+1)^2 |
| `Formation.IndexOfOffset` | foundry/module/scripts/token_commands.js:412-438 | the offset has a left inverse: different indexes have different cells |
| `Formation.OffsetOfIndex` | foundry/module/scripts/token_commands.js:412-438 | every cell of the integer grid has an index |
| `Formation.OffsetInjective` | foundry/module/scripts/token_commands.js:409-411 | no two indexes share a cell |
| `Formation.FormationOffset` | foundry/module/scripts/token_commands.js:421-438 | the search over rings ends and gives the offset of the floored, non-negative index |
| `Formation.ListRing` | foundry/module/scripts/token_commands.js:428-433 | the nested loops list the 8r cells of ring r |
| `Placement.PartyLandsApart` | foundry/module/scripts/token_commands.js:229-244 | party members with equal tokens, sent to one point or target without a distance, aim at different places, and land on different places when clamping does not bind |
| `Placement.MembersApart` | foundry/module/scripts/token_commands.js:319-361 | different offsets give different places after snapping to the grid |
| `Placement.SnapShifted` | foundry/module/scripts/token_commands.js:350-361 | shifting the centre by whole cells shifts the snapped corner by as many |
| `Placement.SlotsApart` | src/ai_dm/ai/intent_router.py:604-625 | the slots that a party move hands out have different offsets |
| `Placement.ClampedFits` | foundry/module/scripts/token_commands.js:364-368 | clamping leaves a token no larger than the scene wholly inside it and moves it exactly when it would not have fitted |
| `Placement.PartyStacksIff` | foundry/module/scripts/token_commands.js:364-368 | two members with equal tokens land on one place exactly when, on both axes, their offsets from the anchor are equal, or both lead off the scene on one side, or the scene has no room |
| `Placement.ClampedTogetherIff` | foundry/module/scripts/token_commands.js:367-368 | clamping sends two coordinates to one exactly when they are equal, both at or before the near edge, both at or past the far one, or there is no room |
| `Placement.ClampingCanStack` | foundry/module/scripts/token_commands.js:364-368 | a scene in which clamping puts two members on one place |
| `Placement.PartialMove` | foundry/module/scripts/token_commands.js:306-318 | before snapping, a partial move covers the ordered distance, towards a target the way to it if that is less, and away from one less than a pixel off that share of it |
| `Placement.HeadingLands` | foundry/module/scripts/token_commands.js:245-262 | an order with a direction and a distance and no target is refused exactly when its word, whatever its case and the blanks around it, names no direction; otherwise the token goes that many feet north, south, east or west as the word says, north lowering y, to within half a cell |
| `Placement.LoneLands` | foundry/module/scripts/token_commands.js:328-361 | a lone token sent to a target ends beside it: touching it from its own side on the axis on which they are further apart, level with it on the other, to within half a cell; sent to a point it ends there exactly |
| `Placement.SnapNear` | foundry/module/scripts/token_commands.js:359-361 | snapping moves the corner by at most half a cell, onto a multiple of the cell |
| `Placement.TokenDoc.MoveActorTo` | foundry/module/scripts/token_commands.js:199-389 | which way of moving the order asks for, where the token stands afterwards, and the two refusals, after which it stands where it stood |
| `Placement.TokenDoc.Destination` | foundry/module/scripts/token_commands.js:229-362 | the destination before clamping, for a point, a heading or a target |
| `JsonScan.ExtractsObject` | src/ai_dm/ai/response_parser.py:110-139 | for every JSON object text, with nesting, escapes and braces in strings, any prefix without an opening brace and any suffix: the scan returns exactly the object's text |
| `JsonScan.ExtractsCutObject` | src/ai_dm/ai/response_parser.py:139 | an object that breaks off is returned as far as it goes |
| `JsonScan.ObjectCloses` | src/ai_dm/ai/response_parser.py:117-138 | the scan of an object closes at its last character and not before |
| `JsonScan.PassesValue` | src/ai_dm/ai/response_parser.py:121-137 | scanning any value inside an object brings depth and string state back to where they were |
| `JsonScan.ExtractFirstJsonObject` | src/ai_dm/ai/response_parser.py:110-139 | the loop computes what the scan of single characters does |
| `JsonRepair.RepairsIff` | src/ai_dm/ai/response_parser.py:20-20 | a JSON text printed with an extra comma in any of its non-empty containers is repaired to the print without them if and only if no string holds a comma, blanks and a closer in a row |
| `JsonRepair.ExtractedAndRepaired` | src/ai_dm/ai/response_parser.py:92-95 | extraction and repair together give the clean print of the object in a reply with prose around it |
| `JsonRepair.RepairIsDrop` | src/ai_dm/ai/response_parser.py:142-143 | the substitution from left to right drops exactly the commas after which a closer comes next |
| `JsonRepair.DropValue` | src/ai_dm/ai/response_parser.py:142-143 | on any value: exactly the extra commas go if no string is at risk, and otherwise something is lost |
| `Validator.AcceptedIff` | src/ai_dm/foundry/validator.py:104-299 | a command is accepted exactly when what must resolve does and its coordinates, amounts, sizes, texts and patch keys are within the rules; nothing but ids changes in it |
| `Validator.IdsRewritten` | src/ai_dm/foundry/validator.py:104-299 | in every accepted command each name that resolves is replaced by the id it resolves to, tokens under the command's scene, and a loosely resolved one that does not resolve is left as it was; a highlight takes a token before an actor |
| `Validator.RefusalDeserved` | src/ai_dm/foundry/validator.py:301-377 | whatever a refused command is refused for is so of the field that the error names |
| `Validator.ValidatedTwice` | src/ai_dm/foundry/validator.py:104-299 | validating a validated command of any type but `highlight_object` accepts it and changes nothing |
| `Validator.HighlightedTwiceIff` | src/ai_dm/foundry/validator.py:157-165 | validating a `highlight_object` again changes it exactly when its target resolved as an actor whose id is an alias of a token with another id |
| `Validator.HighlightMoves` | src/ai_dm/foundry/validator.py:157-165 | a registry reached by two registrations in which that happens |
| `Validator.StrictFieldsLive` | src/ai_dm/foundry/validator.py:305-320 | each strictly resolved field of a validated command names a live entry |
| `Validator.AllowedIffRooted` | src/ai_dm/foundry/validator.py:347-351 | the allow-list, read as paths: inside one of the seven roots of `system`, or any key that begins with `name` or `img` |
| `Validator.AcceptedUpdateConfined` | src/ai_dm/foundry/validator.py:339-357 | whatever an accepted `update_actor` patch holds, the rest of the actor stays as it is |
| `Standing.NextStands` | src/ai_dm/foundry/batch_executor.py:354-383 | a step that is answered with success and does not delete keeps every entry of the registry naming a document of the world, also where an alias is refused |
| `Standing.NextStandsIff` | src/ai_dm/foundry/batch_executor.py:354-383 | when a command of a batch deletes, nothing is unregistered: afterwards every entry names a document exactly when none named what was deleted, a scene's tokens included |
| `Standing.UndoStandsIff` | src/ai_dm/foundry/batch_executor.py:336-345 | after an inverse that deletes, every entry names a document exactly when the deletion took away nothing registered but what the inverse, if it was answered, unregisters |
| `Standing.DeletionStandsIff` | foundry/module/scripts/socket_bridge.js:258-268 | what a deletion takes away, and nothing else |
| `Standing.StandsOn` | foundry/module/scripts/socket_bridge.js:136-293 | the modelled commands that do not delete take no document away |
| `Acceptance.AcceptedUpdateUndoneIff` | src/ai_dm/foundry/validator.py:339-357 | an accepted `update_actor` with prefix-free keys is taken back exactly when each key that is read back led to a value and brought no new key below it, and each other key led to null |
| `Acceptance.AcceptedReadIff` | foundry/module/scripts/actor_commands.js:191-203 | of the accepted keys, the snapshot reads back all but those that begin with `name` or `img` and go on without a dot |
| `Acceptance.AcceptedMoveRefusedIff` | src/ai_dm/foundry/validator.py:121-146 | an accepted `move_actor_to` is refused by Foundry exactly when the target it names is not found, or it names only a direction and that is unknown or its distance is negative |

## Left out

- World: `move_actor_to`, `create_note` and `apply_damage` succeed or fail, and change the world, as the environment decides; they have no inverse. The arithmetic of `move_actor_to` is in `Placement`.
- World: `Document.update` is the expansion of the patch laid over the document; the `-=` deletion keys, defaults of the game system and embedded items are not modelled. Of a token's settings only whether it was made playable is kept; coordinates are integers.
- World: what `canvas` shows is the scene last activated; players who view another scene are not modelled.
- Dotted: expansion works on values, so that a nested object of the caller's patch is not shared with the result (this matters only for patches that are not prefix-free); arrays are objects with keys, without their `length`.
- Registry: entries are values, without `created_at`; the three alias dictionaries are one map by kind. Lower-casing is that of ASCII letters.
- Validator: rewriting is on values (the code rewrites a fresh copy and drops it on an error); the schema check of the data model is reduced to the missing scene of `read_token`; `x` and `y` of `move_actor_to` are one optional pair.
- Batch: the census that explains a timeout, logging, and rewriting by the command router are not modelled. A submitted inverse takes effect at once or never, as the environment decides. A step that was not answered takes effect before the rollback, after it, or never; one that takes effect between two inverses is not modelled.
- Inverter.UpdateActorUndone: for patches without a key inside another, and actors addressed by their id, as the validator leaves them.
- Relay: message contents and the JSON on the wire; a request is its id. A send that hangs is a connection that leaves. What a tab or a client does with an event is not modelled.
- Relay.RelayServer.HandleMessage: malformed messages, `ping` and `who` are not modelled; they change nothing.
- Relay.RelayServer.Register: the metadata of a client, which only the census reports, is not modelled.
- Relay.RelayServer.Drop: the metadata of a client, which only the census reports, is not modelled.
- Client: `who`, push events and reconnection; sending is one step, and setting a response and its event is one step.
- Queue: cancelled futures, and the futures still waiting after a shutdown; counters change in one step with the event they count. A queue and its worker are one entry.
- Authority: actor updates other than hit points are told apart by the text of their sorted keys, which is taken to be the same in command and echo; the router's hook is taken to prime every own write.  The commands of a rollback do not pass the router and are not in the loop.
- Authority.InboundArbiter.DoRevert: the outcome of the dispatch is not in the verdict, and a known `x` with an unknown `y`, which raises in the code, is a verdict without a write.
- Placement: real arithmetic instead of binary floating point; the length of the line to the target is given.
- Placement.TokenDoc.MoveActorTo: the scene, the actor's token and what stands under the target's id and name are given; the fuzzy search by name is not modelled.
- JsonScan: code fences and `json.loads` itself; JSON numbers are any texts of their characters.
- JsonRepair.ExtractedAndRepaired: assumes that no string is at risk from the substitution; `JsonRepair.RepairsIff` says exactly when that matters.
- The `rememberEventId` filter, reconnect and census threads, rules engine, combat, planner, speech and user interface would add easy members or none.

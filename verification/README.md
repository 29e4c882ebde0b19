# MQTT Raspberry controller: model and proofs

The controller is a Go daemon that exposes GPIO lines and command actions of a Raspberry Pi over
MQTT. This project models, in Dafny, the parts of it whose correctness does not follow from
reading one function, and proves what they promise.

- **Discovery reconciliation** (`DiscoveryTopics`, `Config`, `Manifest`, `Reconcile`,
  `ReconcileSafety`, `ReconcileConvergence`, `ReconcileDaemon`). The manifest on disk and the retained topics on the broker
  are kept in step by a protocol that writes an over-approximation, deletes, publishes, and writes
  the exact list. `Reconcile` is the step machine: any number of runs, each with its own
  configuration, share one state file, a lock and a broker; every publish and every write succeeds,
  fails after taking effect, or fails before; a run may crash between any two steps, power may be
  lost, and other clients publish as they like except over the controller's own topics. An execution
  may start from any file and any broker, with topics left there by earlier lives of the controller.
  `ReconcileDaemon` is the routine itself, changing disk and broker in place, and is proved to be a
  run of the machine.
- **Commands** (`DuplicateCache`, `Session`, `EntityWorker`, `EntityHistory`, `SwitchHandler`, `Executor`).
  Admission with the bounded duplicate cache, reconnects and their hooks, the bounded queue and worker of
  one entity under every interleaving with arrivals and cancellation, the switch handler, and the action
  list.
- **Shutdown** (`Shutdown`, `ShutdownOutcome`, `ShutdownBudget`). The two gates in front of the controller and of the
  MQTT client, the staged shutdown in every interleaving with workers and callbacks, and its time
  budget.
- **Environment expansion** (`Expansion`), **bounded capture of command output** (`Executor`) and
  **GPIO lines** (`Gpio`).

State machines have an `Enabled` predicate and an `Apply` function; an `Execution` is a list of states
and events that follows them from an initial state. Results about them hold at every position of every
execution. Code that works in place is a class whose methods are proved against functions of its state.

Four expectations one might have of the code do not hold, and are stated for what they are:

- Publishing with an empty state path records nothing, so topics can go untracked. When exactly, for
  every list of outcomes and every position, is `ReconcileSafety.UntrackedExactlyWhenUnlisted`;
  `Config.DefaultsFillTheGaps` shows that no loaded configuration gets there.
- The comment at mqtt/client.go:148-149 promises that session handlers run before subscriptions of
  the new session become live. That holds within one hook, but an earlier connection's hook may still
  be subscribing on the new connection, and a message of the old session may be decided after the new
  hook's reset. Without either, rejection is session-scoped (`Session.RejectedOnlyWithinSession`).
  In any state at all, `Session.MisdeliversExactly` says when the next delivery can be wrongly rejected
  and `Session.MisfiresExactlyOnLeftOver` when one subscription and one delivery lead there;
  `Session.MisfiresExactlyOnOverlap` is what the latter amounts to as long as nothing has overlapped yet.
  `Session.OverlapIsReachable` and `Session.LateDecisionMisfires` reach such states in both ways. The
  second assumes that the MQTT library may run a connection's hook while a callback of the connection
  before it has not returned; nothing in the repository says that it may, or that it may not.
- The last published switch state need not be the current one. For a memory switch that no command
  holds, it is stale exactly when a bulk publisher published last, from a reading that has been overtaken
  since, or when the handler published last and then failed to publish the state as it is now
  (`EntityHistory.StaleExactlyWhenOvertaken`; `EntityWorker.LastPublishedMayBeStale` and
  `EntityWorker.FailedReportLeavesStale` are such runs). What the handler itself publishes is current
  (`EntityWorker.HandlerPublishesCurrentState`).
- One action, and never more than one (`EntityWorker.AtMostOneStartAfterCancel`), may still start after
  cancellation: exactly when the cancellation lands between an action's check and its start
  (`EntityHistory.LateStartExactlyInTheGap`; `EntityWorker.OneStartAfterCancelHappens` is such a run).

## Model

| member | source | states |
|---|---|---|
| Text.NumberedInjective | controller/controller.go:258 | the "text:number" key used for duplicates and for GPIO lines determines both parts, although the text may itself contain colons and digits |
| Text.SortDeterminedByElements | controller/discovery.go:272-277 | the sorted list depends only on what is in it, not on the map's iteration order |
| DiscoveryTopics.ValidDiscoveryID | controller/discovery.go:254-265 | the hand-written scanner accepts exactly the language of the configuration's identifier pattern |
| DiscoveryTopics.ParserAcceptsPrinter | controller/discovery.go:101-105 | a topic built for a device is accepted as owned by device d exactly when d is that device, for any non-empty prefix without wildcards, slashes allowed |
| DiscoveryTopics.OwnedTopicsAreTheBuiltOnes | controller/discovery.go:240-252 | the accepted topics of a device are exactly those the printer can build for it |
| DiscoveryTopics.PrinterInjective | controller/discovery.go:103 | prefix, kind, device and entity can all be read back from a topic, so distinct entities or devices never share one |
| Config.ConfigFile.ApplyDefaults | config/config.go:159-175 | an empty client identity or base topic becomes the device, an empty prefix or state file its fixed default, a configured one stays; base topic and prefix lose exactly the slashes at their ends; nothing else changes |
| Config.ConfigFile.Validate | config/validation.go:35-119 | accepts exactly the configurations with valid identifiers, wildcard-free prefixes, a client identity, and pairwise distinct, well-formed entities |
| Config.ConfigFile.Load | config/config.go:150-156 | whatever passes defaults and checks has everything discovery relies on, including a state file |
| Config.DefaultsFillTheGaps | config/config.go:160-175 | no loaded configuration lacks a state path or client identity, and no prefix has a slash at either end |
| Config.DesiredTopicsAreOwned | controller/discovery.go:91-108 | the desired topics are pairwise distinct and all recognised as the device's own |
| ReconcileConvergence.DesiredIsEveryEntity | controller/discovery.go:91-108 | with discovery on, every entity's document is desired at prefix/kind/device/entity/config, one each and in order; with discovery off, none is |
| Manifest.ValidateDiscoveryState | controller/discovery.go:214-238 | accepts exactly the empty state and the states of this version with an owner, a valid device and distinct topics owned by that device |
| Manifest.UnionTopics | controller/discovery.go:267-278 | the sorted union, whatever order the map is walked in |
| Manifest.UnionFacts | controller/discovery.go:267-278 | a union lists every topic of both sides, and each once |
| Manifest.DifferenceTopics | controller/discovery.go:280-293 | the sorted difference, by way of a set of what to keep |
| Manifest.DifferenceFacts | controller/discovery.go:280-293 | a difference lists exactly the previous topics that are not desired |
| Manifest.WrittenManifestsAreValid | controller/discovery.go:67-88 | the blank, pending and exact manifests written under an accepted configuration all pass validation and ownership on reload, whatever valid manifest came before |
| Manifest.PendingTopics | controller/discovery.go:77-79 | the pending manifest covers what was listed and what is about to be published |
| Reconcile.StepKeeps | controller/discovery.go:35-89 | every step with every outcome keeps every surviving manifest covering the topics that are ours, and keeps the facts the run has established so far |
| Reconcile.StepSparesOthers | controller/discovery.go:131-157 | a step of one run leaves the facts of every other run intact: only the lock holder touches disk or broker |
| Reconcile.LockedOutRunIsIdle | controller/discovery.go:49-53 | while another process holds the lock, a run changes nothing |
| Reconcile.ApplyKeeps | controller/discovery.go:35-89 | steps, starts, crashes, power losses and other clients' messages all keep the system invariant |
| Reconcile.ExecutionInv | controller/discovery.go:35-89 | the invariant holds at every moment of every execution with any number of runs and configurations |
| ReconcileSafety.CrashSafeTracking | controller/discovery.go:77-88 | at every moment, every manifest content that could survive lists every retained topic the controller has put on the broker and not deleted |
| ReconcileSafety.MutualExclusion | controller/discovery.go:131-157 | at most one run is between taking and releasing the lock |
| ReconcileConvergence.Convergence | controller/discovery.go:65-88 | a run that returns without error, in any execution and from any reachable state, leaves exactly the desired topics and payloads as ours, the exact manifest durably on disk, every undesired topic of the manifest it read off the broker, and nothing else there except what never was ours; topics that somebody else publishes meanwhile are the one exception |
| ReconcileConvergence.SoloRunDecidesTheBroker | controller/discovery.go:65-88 | the whole broker after a successful run by itself, under every list of outcomes, from any file and any broker: desired topics carry their documents, listed but undesired ones are gone, all others are as they were |
| ReconcileConvergence.SoloRunAnnouncesEveryEntity | controller/discovery.go:35-108 | after a successful run from any file and any broker, every entity's topic, spelled out, carries that entity's document, or none does if discovery is off; what the file listed and no entity has is gone, all else is as it was |
| ReconcileConvergence.EveryEntityIsAnnounced | controller/discovery.go:35-108 | the same in every execution with any number of runs, crashes and other clients |
| ReconcileConvergence.ConvergedHoldsEveryEntity | controller/discovery.go:88 | the manifest left by a successful run is of this version, client and device, and lists every entity's topic once, sorted, and nothing else |
| ReconcileConvergence.SucceedsExactlyWhenAcceptable | controller/discovery.go:49-88 | left alone, a run from any file and any broker succeeds if and only if the file is missing or holds an acceptable manifest, spelled out, and what it has to write fits in 64 KiB |
| ReconcileConvergence.RunsAnywhere | controller/discovery.go:35-89 | what a run does by itself under any outcomes, it can do at any moment of any execution |
| ReconcileConvergence.RemovedAreGone | controller/discovery.go:65-75 | at every moment of every execution, each topic a working run has got past deleting, stale or of an old device, is off the broker unless somebody else put it back |
| ReconcileConvergence.HasLoaded | controller/discovery.go:55-64 | a run that is past loading read its manifest at one earlier step, found it usable, and has been working from it ever since |
| ReconcileConvergence.OthersAreOthers | controller/discovery.go:110-122 | at every moment of every execution, a topic on the broker that is not ours was there from the start or was put there by somebody else |
| ReconcileSafety.StepAddsNothingElse | controller/discovery.go:110-122 | a step never leaves a topic on the broker that is no longer recorded as ours: deleting takes it off, publishing makes it ours |
| ReconcileSafety.SoloRunIsSafe | controller/discovery.go:35-89 | one run under every sequence of outcomes, at each intermediate point: what is ours stays tracked, nothing else appears on the broker, and success means convergence |
| ReconcileSafety.OnlyOwnTopicsChange | controller/discovery.go:55-88 | a retained topic changes only if its own client publishes it, or it is desired by the acting run, or it is listed in the valid manifest of the same owner that the run loaded |
| ReconcileSafety.LoadedWasRead | controller/discovery.go:55-61 | the manifest a run acts on is one it read at the state path earlier in the execution |
| ReconcileSafety.RefusedManifestTouchesNothing | controller/discovery.go:55-64 | a malformed, oversized, unreadable or foreign manifest leads to no publish and no write, under every sequence of outcomes |
| ReconcileSafety.HealthyThroughout | controller/discovery.go:295-350 | in every execution of one client, every content that could be at the state path is missing, or a valid manifest of that client within the size limit |
| ReconcileSafety.NeverLockedOut | controller/discovery.go:55-64 | the daemon never rejects a manifest it wrote itself, whatever crash or failure came in between and whatever configuration of the same client comes next |
| ReconcileSafety.ExactManifestLeavesNothingStale | controller/discovery.go:84-88 | after an exact manifest of the same configuration there is nothing to migrate or delete |
| ReconcileSafety.RepeatDeletesNothing | controller/discovery.go:65-88 | a run that finds its own exact manifest in place never sends a deletion, in any execution |
| ReconcileSafety.UndisturbedOutcome | controller/discovery.go:35-89 | without failing effects, a run that returns succeeds exactly when the lock is free, the manifest is usable and the manifests to write fit the limit |
| ReconcileSafety.RunsEnd | controller/discovery.go:110-122 | whatever fails, a run ends within a number of steps fixed by what it found |
| ReconcileSafety.UndisturbedRunConverges | controller/discovery.go:65-88 | from every tracked world, half-finished or under another device, an unobstructed and undisturbed run ends, succeeds and converges, leaving nothing on the broker that is neither desired nor foreign before |
| ReconcileSafety.UntrackedExactlyWhenUnlisted | controller/discovery.go:45-48 | without a state path, after any outcomes and at any point of the run, topics are tracked exactly when the file at the path already lists all those whose publication took effect |
| ReconcileDaemon.Daemon.PublishRetained | mqtt/client.go:174-189 | a retained publish takes effect now or never, and an empty payload removes the topic |
| ReconcileDaemon.Daemon.WriteDiscoveryState | controller/discovery.go:295-350 | old or new content, never a mixture; durable exactly on success; refused above 64 KiB |
| ReconcileDaemon.Daemon.LoadDiscoveryState | controller/discovery.go:189-212 | a loaded state is the stored one or, with no file, the empty one; it is refused only when unreadable or oversized, or when reading fails |
| ReconcileDaemon.Daemon.RemoveTopics | controller/discovery.go:111-115 | deletes in order and stops at the first failure, following the machine step by step |
| ReconcileDaemon.Daemon.PublishAll | controller/discovery.go:116-120 | publishes in order and stops at the first failure, following the machine step by step |
| ReconcileDaemon.Daemon.PublishDiscoveryChanges | controller/discovery.go:110-122 | at each of its three call sites, all deletions come before all publications, and either stops the run when it fails |
| ReconcileDaemon.Daemon.LockAndLoad | controller/discovery.go:49-64 | a run goes on exactly when no effect failed, the lock was free and the manifest is one it may act on; every refusal releases the lock |
| ReconcileDaemon.Daemon.LeaveOldDevice | controller/discovery.go:65-75 | a device-ID change deletes the old device's topics before the old list is given up |
| ReconcileDaemon.Daemon.ReconcileDiscovery | controller/discovery.go:35-89 | every execution of the routine is a run of the step machine with the same answer; what is ours stays tracked however it ends, success means convergence, and unless an effect fails it succeeds if and only if nothing obstructs it |
| DuplicateCache.StampsDiffer | controller/controller.go:262-263 | stamps within one window differ even across the 64-bit wrap of the counter |
| DuplicateCache.EvictOldest | controller/controller.go:266-272 | evicting by stamp forgets a key exactly when no later entry of the queue carries it |
| DuplicateCache.KeysAreTheWindow | controller/controller.go:257-272 | the map's keys are exactly the keys among the last 256 recordings |
| DuplicateCache.Admission.AcceptMessage | controller/controller.go:246-281 | while open, a message that is not retained is accepted and leaves no trace at QoS 0; at QoS 1 and 2 it is refused exactly when it is flagged as duplicate and its "topic:id" is among the last 256 recordings since reset, and recorded otherwise; retained ones and all ones after closing are refused without a trace |
| DuplicateCache.Admission.ResetDedupe | controller/controller.go:283-289 | a new session starts with no recordings |
| Session.Client.BeginCallback | mqtt/client.go:160-168 | a callback is counted exactly when the client still accepts |
| Session.Client.HandleConnect | mqtt/client.go:227-255 | session handlers in order, then every subscription tried once, then online, then connect handlers in order, whether or not a subscription or the online status fails; nothing once shutdown has begun; the callback count is restored |
| Session.LogIsHistory | controller/controller.go:257-279 | deciding about a delivery in the reconnect model records exactly what the cache records |
| Session.RejectedExactly | controller/controller.go:258-279 | a redelivery is rejected exactly when the same topic and packet identifier is among the last 256 recordings, although keys are plain text |
| Session.StaysInOneSession | mqtt/client.go:227-255 | while hooks do not overlap sessions, everything recorded or in hand comes from one session |
| Session.RejectedOnlyWithinSession | controller/controller.go:167 | over every such run of reconnects and deliveries, a message is rejected only if the same packet was recorded earlier in the same session |
| Session.MisdeliversExactly | controller/controller.go:257-279 | in any state of a live connection, the next delivery can be rejected without justification in its session exactly when the last 256 recordings hold a packet of another session, with none like it recorded in this one, on a subscribed topic |
| Session.MisfiresExactlyOnLeftOver | mqtt/client.go:241-248 | in any state of a live connection, one subscription and one delivery lead to such a rejection exactly when the recordings hold such a packet and some hook is still subscribing |
| Session.MisfiresExactlyOnOverlap | mqtt/client.go:241-248 | while hooks have not overlapped sessions, and something is recorded, that is exactly when the current hook has yet to reset the cache while an older hook is still subscribing |
| Session.OverlapIsReachable | mqtt/client.go:241-248 | a reconnect that overtakes the first hook reaches a state one subscription and one delivery away from a wrong rejection |
| Session.LateDecisionMisfires | mqtt/client.go:262-268 | an execution without overlapping subscriptions in which a message of the old session, decided after the reset, makes a later redelivery be rejected wrongly |
| EntityWorker.FifoThroughout | controller/controller.go:192-214 | in every interleaving, what was given a place in the queue is, in order, what was handled, in hand, dropped in hand at shutdown, or still queued, at most 32 of them waiting |
| EntityWorker.AcceptedLog | controller/controller.go:192-201 | every accepted command is queued, overflowed or still arriving, in order of acceptance |
| EntityHistory.OverflowsExactlyWhenFull | controller/controller.go:197-201 | over every run, an arriving command overflows exactly when 32 are waiting, and joins the end of the queue otherwise |
| EntityHistory.ClosedForGood | controller/controller.go:246-252 | over every run, nothing is accepted once accepting has stopped or the context was cancelled |
| EntityHistory.LeavesOnlyWhenCancelled | controller/controller.go:299-315 | over every run, the worker exits and drops a command in hand only after a cancellation |
| EntityHistory.EveryCompletionIsReported | controller/controller.go:419-449 | over every run, each completed command of a switch, failed or not, is reported exactly once unless reading or publishing fails; a button reports nothing |
| EntityWorker.PipelineOrder | controller/controller.go:299-333 | handled commands are a prefix of the queued ones, and queued ones a subsequence of the accepted ones |
| EntityWorker.Pipeline | controller/controller.go:299-333 | conservation: accepted = handled + in hand + discarded + queued + overflowed + arriving, at every moment of every interleaving |
| EntityWorker.AtMostOneStartAfterCancel | action/executor.go:60-75 | over an entity's whole run at most one action starts after cancellation |
| EntityHistory.LateStartExactlyInTheGap | action/executor.go:61-65 | over every run, an action starts after cancellation, or is about to, exactly when the cancellation landed between that action's check and its start |
| EntityWorker.ActionsStartAsPrefixes | action/executor.go:60-75 | over every run, the actions of a command start in list order with none skipped |
| EntityHistory.CommandsEndProperly | action/executor.go:60-75 | over every interleaving, each command's actions begin and end as the action list does on its own: a started prefix, ended at the first action it cannot pass, successful exactly when it passes all |
| EntityHistory.CommandsAreAccounted | controller/controller.go:403-436 | over every run, the commands completed and the one under way are the valid commands handed to the handler, in order, none skipped, repeated or invented |
| EntityHistory.StateFollowsHandledCommands | controller/controller.go:434-436 | over every run, a memory switch is in the state asked for by the last handled command whose actions succeeded, or in its initial state if none did |
| EntityWorker.HandlerPublishesCurrentState | controller/controller.go:438-447 | what a handler publishes is the observable state at that moment: always for memory switches, and for GPIO switches unless the line was driven by somebody else since it was read |
| EntityHistory.InvalidPayloadsChangeNothing | controller/controller.go:403-408 | between any two moments of a run in which only invalid commands reach the handler, no action starts, no command completes, the state stays, and the handler publishes nothing, whatever else happens |
| EntityHistory.HandlerLeavesCurrent | controller/controller.go:434-447 | over every run, once the handler is done with a memory switch, a last publication of its own is the state, unless it has since failed to publish the state |
| EntityHistory.StaleExactlyWhenOvertaken | controller/controller.go:371-382 | over every run with any number of bulk publishers and failing publishes, while no command holds a memory switch, its last published state is not the current one exactly when a bulk publisher published last and the state it had read has changed since, or the handler published last and then failed to publish the state |
| SwitchHandler.SwitchRuntime.HandleSwitch | controller/controller.go:403-450 | an ON command runs the on actions and an OFF command the off actions; a memory switch takes the target exactly when all pass, and publishes its new state then and its old one otherwise; a GPIO switch publishes what its line reads; a failing publication changes nothing |
| Executor.Execute | action/executor.go:60-75 | the started actions are a prefix; the run ends at the first action it cannot pass, which was started if it failed and not started if cancelled |
| Executor.EndingIsDetermined | action/executor.go:60-75 | what errors and cancellation do to each action leaves exactly one possible ending and prefix |
| Executor.NothingStartsOnceVisible | action/executor.go:62-64 | once cancellation is visible at an action, neither it nor any later one starts, and the list does not complete |
| Executor.BoundedOutput.Write | action/executor.go:178-197 | reports its full length; what is kept is the first 64 KiB of everything written, the total saturates at the 64-bit maximum, and truncation is flagged exactly when bytes were dropped |
| Executor.CapturedIsPrefix | action/executor.go:178-203 | what is kept is a prefix of what was written, all of it up to 64 KiB; truncation is flagged exactly when something is missing, and the total is exact until it saturates |
| Executor.BoundedOutput.Drain | action/executor.go:178-203 | the same after any sequence of writes in any chunking |
| Expansion.ValidEnvironmentName | config/expansion.go:206-216 | accepts exactly a letter or underscore followed by letters, digits and underscores |
| Expansion.TokensSpellTheInput | config/expansion.go:160-204 | the tokens of a text, found without looking at the environment, concatenate back to it |
| Expansion.ExpandConcat | config/expansion.go:160-204 | the meaning of tokens distributes over concatenation, the first unset name winning |
| Expansion.ValueOfCharacters | config/expansion.go:166-181 | ordinary characters stand for themselves, two dollars for one, a dollar before anything but a dollar or brace for itself |
| Expansion.ValueOfReference | config/expansion.go:189-199 | a name in braces stands for exactly the environment's value, or makes expansion fail with that name |
| Expansion.ValueOfBraces | config/expansion.go:183-193 | braces around anything that is not a name are copied, and so is everything after braces that are never closed |
| Expansion.MissingIsFirstUnset | config/expansion.go:195-198 | a name is reported missing exactly when it is referenced, unset, and no earlier reference is unset |
| Expansion.TokenizeAtBoundary | config/expansion.go:160-204 | cutting a text at a token boundary cuts its tokens there, so substituted text can never join a token |
| Expansion.ExpansionDistributes | config/expansion.go:160-204 | the value of a text is the value of its parts at every token boundary |
| Expansion.EscapeRoundTrip | config/expansion.go:160-204 | doubling every dollar and expanding gives the original text back, in every environment |
| Expansion.ExpandAt | config/expansion.go:166-201 | one scanner step consumes exactly the next token of the input and yields its meaning or its unset name |
| Expansion.ExpandValue | config/expansion.go:160-204 | the one-pass scanner computes the token semantics, or no text and the first unset name |
| Expansion.ExpandField | config/expansion.go:151-158 | the field is overwritten with its expansion, or left alone when a name is missing |
| Gpio.ValidateGPIO | config/validation.go:369-415 | accepts exactly the configurations whose entries are well formed and of which no two name the same chip and line |
| Gpio.ValidGpioInPlainTerms | config/validation.go:369-415 | that is: names, line numbers, biases and debounces are in range, and each chip and line has at most one user among outputs and inputs together |
| Gpio.Manager.RequestLine | gpio/manager.go:126-133 | the kernel hands out a line never handed out before, or refuses |
| Gpio.Manager.OpenOutputs | gpio/manager.go:111-144 | succeeds exactly when the kernel refuses no line; then the configured outputs are open on their chips and lines, those open before keep theirs, new ones are at their initial level and inputs are as before; on failure nothing is open |
| Gpio.Manager.OpenInputs | gpio/manager.go:146-191 | succeeds exactly when the kernel refuses no line and no input to be opened has a malformed debounce; then the configured inputs are open on their chips and lines and those open before keep theirs; on failure no input is; outputs and levels are untouched either way |
| Gpio.Manager.Close | gpio/manager.go:275-304 | nothing is open and every line ever obtained has been given back; an error is reported exactly when some close call failed |
| Gpio.Manager.SetOutput | gpio/manager.go:220-239 | only the named line can change level, and not once it is closed, even if everything is closed between looking it up and setting it; it fails exactly when the line is not open, is closed meanwhile, or the driver fails |
| Gpio.Manager.EveryLineIsInOnePlace | gpio/manager.go:111-191 | a line ever obtained is open under exactly one name or closed exactly once, never both |
| Gpio.Manager.OpenLinesAreExclusive | config/validation.go:380-411 | under an accepted configuration no two open lines share a chip and offset |
| Shutdown.CountedKept | controller/controller.go:182-190 | each wait group always equals the number of goroutines behind its gate |
| ShutdownOutcome.GpioCallbackAdmitted | controller/controller.go:182-190 | in every execution, a GPIO callback is let in exactly as long as no signal has come and the main goroutine has not closed the controller's gate, and is turned away otherwise |
| ShutdownOutcome.MqttCallbackAdmitted | mqtt/client.go:158-168 | in every execution, a message or connect callback is let in exactly as long as the main goroutine has not closed the client's gate |
| ShutdownOutcome.ConnectPartAdmitted | controller/controller.go:168-177 | the controller's part of a connect hook is let in exactly as long as a GPIO callback would be |
| Shutdown.StagedKept | cmd/mqtt-raspberry-controller/main.go:37-54 | what has and has not been stopped, cancelled, awaited and closed at each stage of shutdown |
| Shutdown.DrainedKept | controller/controller.go:343-346 | a wait that has ended means an empty room that nobody can enter again |
| Shutdown.WaitGroupsNeverRaised | controller/controller.go:182-190 | in every interleaving, no wait group is raised once its wait has begun and none goes below zero |
| Shutdown.NothingRunsAfterShutdownDone | controller/controller.go:337-356 | from the moment shutdownDone closes, no worker and no controller callback runs or starts |
| Shutdown.DisconnectsOnlyWhenIdle | mqtt/client.go:191-218 | the transport is disconnected only with no MQTT callback and no worker active |
| Shutdown.GpioClosesLast | cmd/mqtt-raspberry-controller/main.go:40-53 | GPIO lines are closed only after both gates are empty, and they stay empty |
| Shutdown.OfflineIsTheLastMessage | mqtt/client.go:204-222 | when shutdown succeeds on a connected client, offline is the last message published, then and ever after |
| ShutdownOutcome.ReturnsWhatHappened | cmd/mqtt-raspberry-controller/main.go:37-54 | in every execution, shutdown reports an error exactly when one of its stages has failed |
| ShutdownOutcome.DisconnectsAnyway | mqtt/client.go:211-221 | a failing offline publish does not keep the transport from being disconnected |
| ShutdownOutcome.ShutdownCanSucceed | cmd/mqtt-raspberry-controller/main.go:37-54 | from every reachable state of the running service, with whatever workers and callbacks inside, shutdown can succeed: everybody leaves, offline is the message it adds if connected, transport and lines are closed, no error |
| ShutdownBudget.MqttClose | mqtt/client.go:191-223 | callback wait, offline publish and quiesce together stay within the timeout; it fails exactly when the callbacks do not finish, the time is used up or the offline publish fails; the quiesce is half a second, or the whole milliseconds left if less |
| ShutdownBudget.ShutdownService | cmd/mqtt-raspberry-controller/main.go:37-54 | all waits of all stages share one ten-second budget, however long is spent computing in between; it succeeds exactly when all three stages do, and GPIO closes exactly when the first two did |

## Left out

- The JSON, YAML, regular-expression, MQTT and GPIO libraries: a decoded configuration, an identifier
  pattern as a predicate, a publish outcome and a line handle stand for them.
- Discovery documents are an opaque non-empty payload per entity; encoding errors are not modelled, and
  the encoded size of a manifest is a parameter function of the manifest.
- Text is a sequence of Unicode characters, so invalid UTF-8 in a topic or owner, which the JSON encoder
  replaces on writing, is not modelled.
- File-system details of the manifest (modes, owners, symbolic links, temporary files) reduce to
  missing, unreadable or stored; a rename that was not synced is a content that may survive a power loss.
- All runs share one state path; a configuration that changes the path starts from an unrelated file.
- ReconcileDaemon.Daemon.PublishRetained: a publish that reports failure takes effect at that step or
  never; one that times out and reaches the broker later is not modelled.
- The controller's own MQTT actions count as outside messages in the reconcile model: they are assumed
  not to target its discovery topics.
- The quality of service of discovery messages (controller/discovery.go:124-129).
- Broker URL, credentials, TLS, duration and state-path syntax checks; an entity's name and action checks
  are one flag of the entity.
- Parsing of command payloads is a parameter of the worker, and the 4 KiB payload limit of
  mqtt/client.go:279-289 is not modelled.
- Process launch, process groups, signals and time limits of command actions: an action is an outcome.
- Message callbacks of one client arrive one at a time, as the client is configured (mqtt/client.go:90).
- A command that finds the queue full has already been recorded as seen (controller/controller.go:257-279
  come before controller/controller.go:197-201); a redelivery of it is rejected like any other.
- EntityHistory.StaleExactlyWhenOvertaken: for memory switches; a GPIO switch can also go stale because its
  line is driven by another goroutine, or because reading it failed.
- A state publication that is reported as failed but reached the broker is one that was published.
- Several workers share GPIO lines only through the `Drive` event of another goroutine.
- Chip names are compared as text, so two names of one chip are not recognised as the same.
- Reading GPIO values, edge events, and the walk over the fields to expand.
- Log text, rate-limited counters and error wording.
- Config.ConfigFile.ApplyDefaults: manufacturer, model, chip and bias defaults (config/config.go:177-200)
  set fields that discovery does not use, and are not modelled.
- Config.ConfigFile.Validate: name, action, quality-of-service, duration, state-path and TLS checks are not
  modelled or are one flag per entity; the GPIO checks are `Gpio.ValidateGPIO`.
- Config.ConfigFile.Load: decoding and environment expansion come before it; it covers the fields discovery
  uses.
- Session.LateDecisionMisfires: rests on that assumption about the MQTT library.
- Session.RejectedOnlyWithinSession: the code does not enforce that hooks and deliveries do not overlap
  sessions; what happens when they do is stated by the lemmas named above.

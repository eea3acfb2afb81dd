# HiQ desktop shell: verified models

Dafny models of the stateful protocols, stores and transformations of the desktop shell, with proofs of what they
keep over every run. `dafny verify dfyconfig.toml` checks the whole project.

| module | what it models |
|---|---|
| `HostRoot`, `SharedHost`, `ControllerSwap`, `SwapRace`, `SwitchOutcome`, `TabControllers` | the controller of a tab being rebuilt by model, profile and effort switches, tab opening and scheduled runs, around a reference-counted plugin host |
| `WatchPersistence`, `BotBridge` | the bot bridge hub: the watcher list and its file, the pending approvals and questions |
| `SessionMoves`, `ProfileRouting`, `MigrationRerun`, `ProfileMigration`, `MigrationPass` | the one-time relocation of session files into profile partitions |
| `MediaTokens` | the expiring, bounded store of media tokens |
| `TrialGate`, `TrialPark`, `StepParams`, `TrialRun` | trial runs of browser skills: the gate, parked steps and their signals, parameters, progress events |
| `LoopHistory`, `LoopEngine` | the supervised loop with budgets, breaker and report: its runs as a function of what comes from outside, and the engine that computes them |
| `Utf8` | the two truncations of text at a byte limit (sections 3 and 4 of RFC 3629) |
| `ServerOrder` | the order of the MCP server listing |
| `SkillNames`, `SkillDraft`, `SkillTrace` | skill names, skill files and the mechanical draft made from a recorded trace |
| `EnvFile`, `ExpertStream` | env-file line scanners, the table of expert runs and the stream reducer |
| `Text`, `Wrappers` | string functions of Go's library, optional values |

Concurrent code is a state machine over its atomic steps (`Enabled`, `Next`, `Legal`, `Exec`), so that a run is any
interleaving. The methods of `TabControllers`, `TrialPark` and `BotBridge` (for `SetWatch`) are sequences of such steps,
with arbitrary steps of others in between, and their contracts say so (`Reaches`). What comes from outside (a build's result, a sensor's output, a
rename's success, a page's reaction, the JSON of a `.meta` file) is a parameter, and the theorems hold for every value of
it.

## What the code does and its comments do not say

- `SwitchProfileForTab` and `SetEffortForTab` install their controller even if another attempt won, and do not close
  the one they displace (`desktop/app.go:5523-5525`, `desktop/app.go:5682-5684`). `ControllerSwap.AtRestOpenIsInstalled`
  counts what is left open, and `SwapRace.ConcurrentEffortSwitchesLeak` shows a run that leaks.
- `config.SessionDirFor("dev")` is the flat `sessions` directory itself (`internal/config/config.go:2577-2587`), although
  the migration's comments speak of `sessions/dev`. So the global pass leaves dev sessions where they are and moves only
  the others; the model follows the code.
- The migration is described as safe to repeat from any partial state. It is if no session outside dev was left half
  moved, and only then: `.jsonl` is renamed before its `.meta`, and an orphaned `.meta` goes to dev.
  `MigrationRerun.InterruptedPassResumesExactlyIf` says at which renames a pass may be interrupted.
- The "waiting" event of a trial run is emitted before the channels are drained, so a reply sent at once can be accepted
  and lost (`TrialGate.EarlyReplyCanBeLost`).
- The loop's limit of "consecutive" clean scans also counts clean scans with failed scans between them
  (`LoopHistory.CleanScansNeedNotBeAdjacent`): a failed scan neither counts nor resets. The two clean scans are adjacent
  exactly if the scan before the last did not fail (`LoopHistory.CleanScansAreAdjacentExactlyIf`).
- The host key of an empty root, that of the global tab, is not empty: cleaning makes it `.`, which is the working
  directory (`HostRoot.GlobalTabSharesTheWorkingDirectory`). The comments promise the global tab a host of its own.
- `markExpertRunFinished` does not check whose entry it updates (`desktop/expert_runs.go:127-130`), so a late finish of a
  replaced run marks the new run done, and the next start does not cancel it
  (`ExpertStream.ReplacedRunIsCancelledExactlyIf`).
- `removeEnvFile` passes over comment lines and `removeHomeEnvKey` does not; they agree on every line exactly if the key
  does not start with `#` or contains `=` (`EnvFile.ScannersAgreeExactlyIf`).
- A quoted value in a skill file's header loses its closing quote and keeps its opening one, because quotes are taken off
  before the space after the colon is (`SkillDraft.QuotedValueKeepsItsFirstQuote`).
- Sanitising a skill name twice can differ from sanitising it once (`SkillNames.OnceIsNotEnough`).

## Model

| member | source | states |
|---|---|---|
| `SharedHost.AcquireKeepsWf` | desktop/shared_host.go:30-49 | acquiring keeps the table well formed: entries are counted at least once, no host serves two roots, no live host was torn down |
| `SharedHost.ReleaseKeepsWf` | desktop/shared_host.go:68-89 | releasing keeps the table well formed |
| `SharedHost.ReleaseUndoesAcquire` | desktop/shared_host.go:30-89 | a release right after an acquire gives every root the host and the count it had, and tears down only a host made by that acquire |
| `SharedHost.SurvivesReleases` | desktop/shared_host.go:68-89 | a host acquired n times more than released survives n further releases |
| `HostRoot.KeySpellsTheDirectory` | desktop/shared_host.go:91-100 | cleaning a root and then making it absolute gives the spelling of the directory it leads to from the working directory |
| `HostRoot.SameKeyExactlyIfSameDirectory` | desktop/shared_host.go:91-100 | two roots share a host if and only if they lead to the same directory, however they are spelled |
| `HostRoot.KeysAreFixed` | desktop/shared_host.go:94-100 | a normalised root is its own key, in whatever working directory |
| `HostRoot.GlobalTabSharesTheWorkingDirectory` | desktop/shared_host.go:28-31 | the global tab shares the host of a project exactly if that project is the working directory |
| `SharedHost.SharedHosts.AcquireSharedHost` | desktop/shared_host.go:30-49 | the new table is the old one with one more reference under the root's normalised key, and the host returned is that key's |
| `SharedHost.SharedHosts.ReleaseSharedHost` | desktop/shared_host.go:68-89 | the new table is the old one with one reference less under the root's normalised key; an unknown key changes nothing |
| `ControllerSwap.KeepsCount` | desktop/app.go:5217-5704 | every step of every attempt keeps each root's count equal to open controllers plus held references |
| `ControllerSwap.KeepsInv` | desktop/app.go:5217-5704 | every step keeps the whole invariant: counts, closes, installed controllers, ownership |
| `ControllerSwap.SwapIsHandover` | desktop/app.go:5292-5310 | the compare-and-install step either gives way and changes no owner, or hands the tab over, displacing a controller exactly when it overwrites |
| `ControllerSwap.EveryRunIsSafe` | desktop/app.go:5217-5704 | over every interleaving of any number of attempts: a root's count is its open controllers plus the references of unfinished attempts, no controller is closed twice, no tab points at a closed controller, an open controller's host is live |
| `ControllerSwap.AtRestOpenIsInstalled` | desktop/app.go:5217-5704 | when all attempts are done, open controllers are the installed ones plus one per overwriting step; so exactly the installed ones if and only if nothing was overwritten |
| `ControllerSwap.ModelSwitchesLeakNothing` | desktop/app.go:5217-5331 | with model switches (and tab openings and scheduled runs) only, at rest exactly the installed controllers are open, and every tab that had a controller has one |
| `ControllerSwap.OverwrittenCtrlLeaks` | desktop/app.go:5523-5525 | a controller displaced by an overwriting step stays open, and its root's host live, through every later run |
| `SwapRace.ConcurrentEffortSwitchesLeak` | desktop/app.go:5614-5704 | two concurrent effort (or profile) switches of one tab can end with both finished and a controller open that no tab points at |
| `SwitchOutcome.SameOwnerExactlyIfUnchanged` | desktop/app.go:5217-5704 | over every run a tab has the controller it had at first exactly if no step changed it in between: one that was displaced never comes back |
| `SwitchOutcome.SwitchInstallsExactlyIf` | desktop/app.go:5217-5704 | between the begin of a switch and its swap, whatever the others do: if the tab's controller did not change, the switch installs its own and is responsible for the one the tab had when it began; if it did, a model switch gives way, and a profile or effort switch installs and is responsible for none |
| `SwitchOutcome.LoneSwitchInstalls` | desktop/app.go:5217-5704 | so a switch without another's swap on its tab always installs its controller and replaces the one the tab had |
| `SwitchOutcome.OpeningInstallsExactlyIfEmpty` | desktop/tabs.go:1264-1386 | a tab opening installs its controller exactly if the tab has none by then |
| `TabControllers.OthersRun` | desktop/app.go:5217-5704 | whatever the other attempts do between two steps, this attempt's state and its hold of the lock stay, no close is undone, and no tab changes while it has the lock |
| `TabControllers.UnswappedAreKept` | desktop/app.go:5217-5704 | a run without a swap on a tab leaves the tab its controller |
| `TabControllers.App.SetModelForTab` | desktop/app.go:5217-5331 | is a run of machine steps that snapshots the tab's controller in a state before it began; succeeds exactly if the tab has that controller when the lock is taken, and always if no other attempt swaps the tab; then the tab has the new, open controller and the replaced one was closed once, else its own new controller was closed once |
| `TabControllers.App.SwitchProfileOrEffort` | desktop/app.go:5406-5588 | is a run of machine steps that snapshots the tab's controller in a state before it began; on success the tab has the new, open controller whoever won; the snapshotted controller was closed once if the tab still had it when the lock was taken, and otherwise the one the tab had is left open and nobody's |
| `TabControllers.App.RunHeadlessScheduled` | desktop/app.go:837-877 | is a run of machine steps that ends holding neither a controller nor a reference |
| `TabControllers.App.AcquireAndBuild` | desktop/app.go:5264-5289 | a failed build gives the reference back, a successful one passes it to a new controller |
| `TabControllers.App.CompareAndInstall` | desktop/app.go:5292-5310 | wins exactly if the tab still has the snapshotted controller; installs if it won or overwrites, else changes no tab |
| `TabControllers.App.CloseReplaced` | desktop/app.go:5293-5298 | the replaced controller is closed exactly once and its reference dropped, under the lock, whatever the others do between the two |
| `TabControllers.App.DiscardBuilt` | desktop/app.go:5299-5310 | a loser closes its own controller exactly once and drops its reference |
| `WatchPersistence.ChangeKeepsInv` | desktop/bot_bridge.go:260-279 | a change of the table leaves some call obliged to write the current version |
| `WatchPersistence.CriticalStepKeepsInv` | desktop/bot_bridge.go:283-293 | lock, snapshot, write and unlock keep the invariant, and the version on disk does not go back |
| `WatchPersistence.DiskNeverGoesBack` | desktop/bot_bridge.go:260-293 | over any interleaving of SetWatch calls no write puts an older snapshot over a newer one |
| `WatchPersistence.AtRestDiskIsCurrent` | desktop/bot_bridge.go:260-293 | when all calls have returned and the last write succeeded, the list on disk is the table in memory |
| `WatchPersistence.ConcurrentSetWatchPersistsTheLastSet` | desktop/bot_bridge.go:260-293 | with successful writes, any interleaving ends with the disk list equal to the watcher set |
| `WatchPersistence.DiskIsCurrentExactlyIf` | desktop/bot_bridge.go:260-293 | after any run, the version on disk is the last one if and only if it was so at first or some successful write took its snapshot after the last change |
| `WatchPersistence.FailedLastWriteLeavesOldList` | desktop/bot_bridge.go:283-293 | a run at rest with a failed last write and the old list on disk |
| `WatchPersistence.WatchingExactlyIfLastEnabled` | desktop/bot_bridge.go:253-279 | after any series of settings a chat is watching exactly if the last setting of its key enabled it, or if there was none and it was watching before |
| `WatchPersistence.KeysTellRoutesApart` | internal/bot/desktop.go:39-41 | two routes have the same key exactly if they are the same, as long as only chat ids contain a bar |
| `WatchPersistence.OtherChatsDoNotMatter` | desktop/bot_bridge.go:253-279 | a setting does not change the watch of a chat that differs only in its id |
| `WatchPersistence.TableFollowsTheChanges` | desktop/bot_bridge.go:260-279 | in any interleaving the table is what the changes, in the order made, leave |
| `BotBridge.PendingIsWhatIsLive` | desktop/bot_bridge.go:87-142 | an entry is pending exactly if it was registered and since then neither replaced, answered nor ended with its tab's turn |
| `BotBridge.AskIsPendingExactlyIfOpen` | desktop/bot_bridge.go:87-142 | over every history, a question with these contents is pending under an id exactly if that tab's AskRequest asked it and since then no request or reply named the id and the tab's turn did not end |
| `BotBridge.ApprovalIsPendingExactlyIfOpen` | desktop/bot_bridge.go:87-142 | the same of an ApprovalRequest with its tool and its subject |
| `BotBridge.ListShowsWhatIsOpen` | desktop/bot_bridge.go:234-251 | a session lists an id as a question exactly if one is open under it in the session's tab, and as an approval of a tool exactly if one of that tool is |
| `BotBridge.TurnDoneRemovesExactlyItsTab` | desktop/bot_bridge.go:134-142 | the end of a turn removes the entries of its tab and no other |
| `BotBridge.DispatchesAreRegistered` | desktop/bot_bridge.go:295-338 | over every run, dispatches for an id never outnumber its registrations |
| `BotBridge.DispatchGoesToLatestRegistration` | desktop/bot_bridge.go:295-338 | a reply goes to the tab of the id's latest registration, and only once |
| `BotBridge.EntryAppearsUnderItsOwnTab` | desktop/bot_bridge.go:234-251 | among distinct listed tabs, a pending entry is shown under its own tab and no other |
| `BotBridge.BotBridgeHub.Observe` | desktop/bot_bridge.go:87-132 | extends the history by exactly the event; a watching chat is notified of a request with its own kind, tool, subject or questions, or of the end of a turn; queue full drops, never blocks |
| `BotBridge.BotBridgeHub.ClearTabPending` | desktop/bot_bridge.go:134-142 | removes exactly the tab's entries |
| `Text.ContainsExactlyIfSlice` | desktop/bot_bridge.go:113-128 | an error text contains the words of a cancellation exactly if they are a slice of it |
| `BotBridge.BotBridgeHub.Take` | desktop/bot_bridge.go:295-338 | an entry is taken before the tab is called: a second reply finds nothing |
| `BotBridge.BotBridgeHub.AskQuestions` | desktop/bot_bridge.go:314-322 | returns questions exactly if they are open under the id in the hub's history, and takes nothing |
| `BotBridge.BotBridgeHub.Sessions` | desktop/bot_bridge.go:234-251 | every session lists exactly the pending entries of its tab, in any order of visiting the table |
| `BotBridge.OthersRun` | desktop/bot_bridge.go:260-293 | whatever other calls do between two steps, this call's state and its hold of the file's mutex stay, and neither the versions of the table nor the one on disk go back |
| `BotBridge.BotBridgeHub.SetWatch` | desktop/bot_bridge.go:260-279 | is a run of machine steps with other calls' in between: the change is in some version of the table from the call on, and if the call changed the table and returned without error, the disk has that version or a newer one; without other calls the table toggles and the disk lists it |
| `BotBridge.BotBridgeHub.PersistSnapshot` | desktop/bot_bridge.go:283-293 | waits for the mutex, then a fresh snapshot is written: on success the disk is at least as new as the table was when the call began |
| `BotBridge.NotificationsKeepTheirOrder` | desktop/bot_bridge.go:144-165 | over every run, what was delivered followed by what is queued is exactly the accepted notifications in their order, never more than the queue's capacity waiting |
| `MediaTokens.RetainedIsLatestUnexpired` | desktop/app.go:264-285 | what is retained is the unexpired part of the latest maxN creations, nothing more and nothing less |
| `MediaTokens.RetainedIsUnique` | desktop/app.go:264-285 | there is only one such suffix of the log of creations |
| `MediaTokens.MediaTokenStore.CleanupLocked` | desktop/app.go:264-285 | stale and expired names go from the front; everything left is live |
| `MediaTokens.MediaTokenStore.Create` | desktop/app.go:287-320 | afterwards the order list and the map hold the same tokens: the longest unexpired suffix of the log of at most maxN creations |
| `MediaTokens.MediaTokenStore.Get` | desktop/app.go:322-334 | strictly before its expiry a token is found exactly if it is among the latest maxN creations, so names left stale never evict a live one |
| `MediaTokens.MediaTokenStore.Forget` | desktop/app.go:322-334 | an expired entry leaves the map, its name stays in the list, and the store stays valid |
| `MediaTokens.NewMediaTokenStore` | desktop/app.go:256-262 | a new store is valid and empty, with the app's capacity and lifetime |
| `SessionMoves.EveryStateConserves` | desktop/migrate_profile.go:160-177 | after any series of moves, whatever fails and wherever it stops, no entry is lost, doubled, changed or overwritten |
| `SessionMoves.CleanRunPlacesAll` | desktop/migrate_profile.go:160-177 | if nothing fails and destinations are free, every entry ends where its first move takes it |
| `ProfileRouting.OneOwner` | desktop/migrate_profile.go:133-140 | no entry belongs to two sessions and no session is a companion |
| `ProfileRouting.PlanLeadsHome` | desktop/migrate_profile.go:187-293 | for every order of the listing, an entry's first move goes where it belongs |
| `ProfileRouting.CleanPassPutsAllHome` | desktop/migrate_profile.go:187-293 | with free destinations and no failure a pass puts every entry where it belongs, for every listing order, and nothing else on the disk |
| `ProfileRouting.PassLeavesAllHome` | desktop/migrate_profile.go:187-293 | after such a pass every entry is where the next pass would put it |
| `ProfileRouting.PassIsIdle` | desktop/migrate_profile.go:187-293 | a pass over a settled directory changes nothing |
| `ProfileRouting.InterruptionOrphansMeta` | desktop/migrate_profile.go:147-154 | interrupted right after a session file was renamed, the next pass parts its `.meta` from it exactly if the session does not belong in dev |
| `MigrationRerun.ResumesExactlyIfTidy` | desktop/migrate_profile.go:142-293 | a later pass takes everything where it belonged at first if and only if no session outside dev was left half moved |
| `MigrationRerun.InterruptedRunIsPartway` | desktop/migrate_profile.go:187-293 | an interrupted pass leaves each entry where it was or where it belongs |
| `MigrationRerun.TidyExactlyIfNotHalfMoved` | desktop/migrate_profile.go:142-293 | after k renames of a pass the directory is tidy exactly if the k-th is not inside the moves of a session outside dev with something of it still to move |
| `MigrationRerun.BetweenSessionsIsTidy` | desktop/migrate_profile.go:204-221 | so a pass interrupted between two sessions, or after the last one, is tidy |
| `MigrationRerun.InterruptedPassResumesExactlyIf` | desktop/migrate_profile.go:142-293 | for every index: a pass interrupted there and run again, on any listing, places everything as an uninterrupted pass would if and only if no session was half moved |
| `MigrationRerun.HalfMovedStaysSplit` | desktop/migrate_profile.go:142-293 | after such an interruption no pass, whatever it manages to move, places everything where it belonged at first |
| `MigrationRerun.RerunAfterTidyInterruption` | desktop/migrate_profile.go:187-293 | from a tidy interrupted state, running again gives what an uninterrupted pass gives |
| `ProfileMigration.OthersKeepFlat` | desktop/migrate_profile.go:246-293 | a pass over one directory leaves the unpartitioned directories of the others as they are |
| `ProfileMigration.TrailConserves` | desktop/migrate_profile.go:48-107 | after any of the passes, whatever failed, the disk holds the same entries |
| `ProfileMigration.EveryStateOfTheMigrationConserves` | desktop/migrate_profile.go:142-293 | the same after any rename within any of the passes |
| `ProfileMigration.CleanTrailPutsAllHome` | desktop/migrate_profile.go:187-293 | with free destinations and no failure all directories end settled, with every entry where it belonged at first |
| `ProfileMigration.SettledTrailIsIdle` | desktop/migrate_profile.go:187-293 | running the passes again changes nothing |
| `ProfileMigration.ProjectSessionsTravelWhole` | desktop/migrate_profile.go:246-293 | after a clean migration a project's session file and its `.meta`, `.ckpt` and `.telemetry.json` are in `projects/<slug>/<profile>/sessions`, unchanged, for the profile its `.meta` file named at first, dev without one |
| `ProfileMigration.GlobalSessionsTravelWhole` | desktop/migrate_profile.go:187-238 | the same of the global directory: a cowork or netdev session ends in `sessions/<profile>`, a dev session stays in `sessions` |
| `ProfileMigration.ProjectOthersGoToDev` | desktop/migrate_profile.go:246-293 | every other entry of a project's directory ends in `projects/<slug>/dev/sessions`, unchanged |
| `ProfileMigration.GlobalOthersStay` | desktop/migrate_profile.go:187-238 | every other entry of the global directory stays in it, profile folders or not |
| `ProfileMigration.TabFollowsItsSession` | desktop/migrate_profile.go:634-711 | the rewritten path of a tab leads to the content its old path led to, if no other session entry has that base name; a valid path is kept |
| `ProfileMigration.LostTabIsLookedFor` | desktop/migrate_profile.go:671-698 | a path that leads nowhere becomes that of the first candidate directory with an entry of its name, and stays if there is none; an empty path stays |
| `ProfileMigration.CandidatesInOrder` | desktop/migrate_profile.go:648-669 | the candidates are the global directories in the order dev, cowork, netdev, then those of each project in that order |
| `MigrationPass.Migrator.MovePathIfExistsExistingOK` | desktop/migrate_profile.go:160-177 | moves only what exists to where nothing is, and only if the rename succeeds |
| `MigrationPass.Migrator.ProfileForSession` | desktop/migrate_profile.go:114-127 | the profile the `.meta` names, dev if it is missing or unreadable |
| `MigrationPass.Migrator.MoveSessionWithCompanions` | desktop/migrate_profile.go:147-154 | is the run of the session's four moves, the session file first |
| `MigrationPass.MetaIsUntouched` | desktop/migrate_profile.go:204-221 | the `.meta` of a session that has not had its turn is as it was at first, whatever the earlier sessions' moves did |
| `MigrationPass.Migrator.MigrateSessions` | desktop/migrate_profile.go:187-238 | two loops over one stale listing do what the plan made from the first state says |
| `MigrationPass.Migrator.MigrateAllSessions` | desktop/migrate_profile.go:246-293 | leaves a trail of passes, one for each directory |
| `MigrationPass.Migrator.RewriteTabSessionPaths` | desktop/migrate_profile.go:634-711 | each tab gets the first candidate directory's entry of its base name if its path is gone; tells whether anything changed |
| `TrialGate.KeepsInv` | desktop/browser_console_app.go:704-828 | every step of any run or signalling call keeps the gate's invariant |
| `TrialGate.EveryHistoryIsSafe` | desktop/browser_console_app.go:704-828 | in every interleaving at most one run is active, a park released by a signal used the first one of its own window, and windows of different parks do not overlap |
| `TrialGate.LeftoversNeverRelease` | desktop/browser_console_app.go:763-811 | signals accepted before a park's drain are dead for it and for every later park |
| `TrialGate.SignalsSoFarAreDead` | desktop/browser_console_app.go:763-811 | while no run is past its drain, every signal so far is dead |
| `TrialGate.ReleasableExactlyIfSignalled` | desktop/browser_console_app.go:804-811 | a waiting park can be released by a reply exactly if one was accepted since its drain, and by the first of those; likewise by an abort |
| `TrialGate.SignalsWakeAWaitingPark` | desktop/browser_console_app.go:736-761 | a reply or an abort sent while a park waits is accepted for its run, and the park can end by it |
| `TrialGate.NoRunNoSignal` | desktop/browser_console_app.go:736-761 | without an active run a signal changes nothing |
| `TrialGate.EarlyReplyCanBeLost` | desktop/browser_console_app.go:788-811 | a reply sent right after the "waiting" event can be accepted and lost |
| `TrialPark.ConsoleTrialGate.Enter` | desktop/browser_console_app.go:715-725 | succeeds exactly if no run is active, with fresh channels |
| `TrialPark.ConsoleTrialGate.Leave` | desktop/browser_console_app.go:727-733 | the gate is free again and has no channels |
| `TrialPark.ConsoleTrialGate.SignalResume` | desktop/browser_console_app.go:736-747 | reports success exactly if a run is active; is one step of the machine |
| `TrialPark.ConsoleTrialGate.SignalAbort` | desktop/browser_console_app.go:750-761 | the same for aborts |
| `TrialPark.ConsoleTrialGate.DrainReply` | desktop/browser_console_app.go:775-783 | ends at a moment at which the channel was empty, whatever is sent meanwhile |
| `TrialPark.ConsoleTrialGate.ParkTrialStep` | desktop/browser_console_app.go:788-828 | the park uses no signal accepted before it, and a returned reply is the first one of its window |
| `StepParams.UnboundStaysLiteral` | desktop/browser_console_app.go:855-881 | unbound references stay literal |
| `StepParams.MatchMeans` | desktop/browser_console_app.go:855-860 | a reference is matched at a place exactly if the text there is two braces, a non-empty name without a closing brace, and two braces |
| `StepParams.ReferenceInFront` | desktop/browser_console_app.go:862-881 | a text that begins with a reference becomes its value, or the reference if it has none, followed by the rest substituted |
| `StepParams.OtherwiseInFront` | desktop/browser_console_app.go:862-881 | a text that begins with anything else keeps its first character; with that the substitution is determined on every text |
| `StepParams.SplitsWithItsPieces` | desktop/browser_console_app.go:855-881 | a text is its pieces in order, and what follows any piece has the same pieces on its own |
| `StepParams.ReferenceIsReplacedOnce` | desktop/browser_console_app.go:855-881 | at every piece of every text: the pieces before it are rendered, it is replaced by its value if it is a bound reference, and the text after it is substituted on its own |
| `StepParams.ValuesAreNotExpanded` | desktop/browser_console_app.go:862-881 | at every reference of every text its value appears verbatim: it is never searched for references |
| `StepParams.OnlyReferredNamesMatter` | desktop/browser_console_app.go:862-881 | only the values of the names a text refers to matter |
| `TrialRun.ParamIsLatestAnswer` | desktop/browser_console_app.go:963-979 | a step sees the latest answer bound to a name, or the seed's value |
| `TrialRun.OneFinalEvent` | desktop/browser_console_app.go:986-1021 | exactly the last event of a run has index -1, and it says whether the last step failed |
| `TrialRun.StepsRunAsWritten` | desktop/browser_console_app.go:862-881 | in every run each step has its own kind and each of its texts and files substituted on its own by the parameters known then |
| `TrialRun.StepsAreReported` | desktop/browser_console_app.go:963-1021 | a question announces and, once answered, binds its trimmed target; the start and end events say what each step is and how it ended |
| `TrialRun.OnlyTheseKindsRun` | desktop/browser_console_app.go:913-981 | which kinds do what the browser does; all others that do not park fail |
| `TrialRun.ParkedStepsEndAsReleased` | desktop/browser_console_app.go:942-973 | the n-th parked step ends by the run's n-th release: it goes on exactly after a reply or a detected condition, and a question's answer is the reply |
| `TrialRun.RunStep` | desktop/browser_console_app.go:913-981 | a parked step ends by one release of its own run, and its result is what released it; an unknown kind fails |
| `TrialRun.BrowserConsoleTrialRun` | desktop/browser_console_app.go:891-1021 | start and done events in order, stop at the first failure, one final event; each step runs as written with the parameters known by then; the results of the parked steps are what released them, in order; no events if it could not start; the gate is left as it was |
| `LoopHistory.TrailingFailsMeansLastOnes` | desktop/loop_engine.go:334-361 | the breaker's count is the number of failed rounds at the end of the timeline |
| `LoopHistory.RecordsFollowTheInputs` | desktop/loop_engine.go:248-394 | a judged round is a pass exactly if its verification ran and succeeded, a failure exactly if it ran and failed, with the changed files and the failed roll-back noted; its usage is counted; only a last round that a stop or the empty queue cut short is not judged, and the one that opens the breaker counts no usage |
| `LoopHistory.EarlyEndHasItsCause` | desktop/loop_engine.go:262-379 | a run ends before MaxRounds only if a stop was requested, the window was over, the budget was spent, the queue was empty, the goal was reached or the breaker opened, and its inputs show which; a stop comes before the window, and that before the budget |
| `LoopHistory.LimitsHold` | desktop/loop_engine.go:262-361 | aborted exactly if the last three records are failures; a goal-driven run has a pass only last; every round starts below the budget, so the total is below it plus the last round's usage |
| `LoopHistory.GoalMetExactlyIfLastPasses` | desktop/loop_engine.go:362-379 | the run ended with its goal exactly if it is goal-driven and its last record is a pass |
| `LoopHistory.BreakerOpensExactlyIf` | desktop/loop_engine.go:334-361 | the breaker opens exactly if the verifications of the last three rounds ran and failed and the last round was not cut short |
| `LoopHistory.GoalMetExactlyIfVerified` | desktop/loop_engine.go:362-379 | the goal is reached exactly if the run is goal-driven and its last round's verification ran, succeeded and was not cut short |
| `LoopHistory.ScansAreTheInputs` | desktop/loop_engine.go:288-314 | the scans counted are those of the rounds made, one each |
| `LoopHistory.CleanScansAreAdjacentExactlyIf` | desktop/loop_engine.go:288-314 | in every run that ends with an empty queue, the last scan is clean, and so is the one before exactly if that one did not fail |
| `LoopHistory.CleanScansNeedNotBeAdjacent` | desktop/loop_engine.go:288-314 | a run that ends with an empty queue on a clean, a failed and a clean scan |
| `LoopEngine.LoopRun.LoopExecute` | desktop/loop_engine.go:248-394 | timeline, usage, scans, stop request and cause are those of the run that configuration and inputs determine; state, stop note and report are those of that run |
| `LoopEngine.LoopRun.LoopStop` | desktop/loop_engine.go:206-221 | a stop is remembered and changes the state of a plainly running run only |
| `LoopEngine.LoopRun.Append` | desktop/loop_engine.go:425-432 | one more record and its usage, negative usage counting as none; the running total stays the sum |
| `LoopEngine.LoopRun.Judge` | desktop/loop_engine.go:328-361 | the record is a pass, a failure or skipped as the verification's outcome says, with the roll-back noted; the run is aborted exactly if it is the third failure in a row |
| `LoopEngine.CountsCoverTimeline` | desktop/loop_engine.go:510-540 | passed, rolled-back and skipped counts sum to the number of records |
| `LoopEngine.CountIsHowMany` | desktop/loop_engine.go:510-540 | each count is the number of records with that verdict |
| `LoopEngine.LastVerdictIsTheLatest` | desktop/loop_engine.go:510-540 | the last verdict is that of the latest record that was verified |
| `LoopEngine.BuildLoopReport` | desktop/loop_engine.go:510-540 | the report's counts are those of the timeline, and its changed files are the size of the union over all records |
| `Utf8.CharExactlyIfEncoded` | desktop/app.go:5864-5878 | the octets of a character, by the grammar of section 4 of RFC 3629, are exactly the encodings of section 3 of character numbers without surrogates, each of just one number |
| `Utf8.ValidExactlyIfText` | desktop/app.go:5864-5878 | valid bytes are exactly the encodings of sequences of such numbers |
| `Utf8.FullRuneMeansNotPartial` | desktop/app.go:5864-5878 | utf8.FullRune is false exactly for characters cut short |
| `Utf8.PrefixIsValidAtRuneStart` | desktop/crash_app.go:44-53 | a prefix of valid text is valid exactly if it ends at a rune start |
| `Utf8.TrimUTF8PartialSuffix` | desktop/app.go:5864-5878 | on any bytes: shortens exactly if they are valid text and a cut-short character, which it takes off, at most three bytes |
| `Utf8.CutAtRuneStart` | desktop/crash_app.go:44-53 | the cut is at the last rune start at or before the limit |
| `Utf8.CutIsLongestValidPrefix` | desktop/crash_app.go:44-53 | on valid text that is the longest valid prefix within the limit |
| `Utf8.CutAndTrimAgree` | desktop/app.go:5864-5878 | on valid text longer than the limit both truncations give the same longest valid prefix |
| `Utf8.TrimmedIsUnique` | desktop/app.go:5864-5878 | only one text meets the promise of the trim |
| `ServerOrder.BuildPositions` | desktop/app.go:5085-5105 | the position map holds each name's last position |
| `ServerOrder.OrderServerViews` | desktop/app.go:5085-5105 | sorts the array in place to the stable sort by recorded position |
| `ServerOrder.OrderedIsStableSort` | desktop/app.go:5085-5105 | the listing is a permutation, sorted by position, unknown names last, equal ones in arrival order |
| `ServerOrder.OrderedIsUnique` | desktop/app.go:5085-5105 | it is the only list with these properties |
| `ServerOrder.MergeServerOrder` | desktop/app.go:5107-5125 | computes the merged record by its two loops |
| `ServerOrder.MergedIsCleanUnion` | desktop/app.go:5107-5125 | no duplicate, no empty name, exactly the names of both, a clean record kept as a prefix |
| `ServerOrder.MergedInArrivalOrder` | desktop/app.go:5107-5125 | its names stand in the order of their first occurrence, the record's own first, then the servers as they arrived |
| `ServerOrder.MergeIsIdempotent` | desktop/app.go:5107-5125 | merging again, in any arrival order, changes nothing |
| `ServerOrder.ListingIgnoresArrivalOrder` | desktop/app.go:3912-3931 | once merged, any arrival order of the same distinctly named servers gives the same listing |
| `ServerOrder.RemoveServerOrder` | desktop/app.go:5127-5138 | filters in place, and leaves what follows the slice alone |
| `ServerOrder.WithoutRemovesExactly` | desktop/app.go:5127-5138 | takes out one name and leaves every other as often as it was |
| `ServerOrder.WithoutGoesByName` | desktop/app.go:5127-5138 | the other names stay in their order |
| `ServerOrder.WithoutKeepsDistinct` | desktop/app.go:5127-5138 | a record without duplicates stays one |
| `ExpertStream.ReduceAddsItsChunk` | desktop/expert_runs.go:196-246 | one event adds exactly its chunk to exactly its voice |
| `ExpertStream.CacheKeepsEveryVoice` | desktop/expert_runs.go:196-246 | for every event sequence and every (expert, round), and for the synthesis, the cached texts in cache order are the chunks in arrival order |
| `ExpertStream.StreamsExactlyIfNotDone` | desktop/expert_runs.go:196-246 | an expert has a message for a round exactly if a start or a chunk came, and the latest one still streams exactly if the expert was not reported done since it was begun |
| `ExpertStream.CacheIsOfTheLatestRun` | desktop/expert_runs.go:95-246 | over every history of starts, finishes, removals and events, the cached texts of a running team are the chunks that arrived for it since its latest start, for every voice |
| `ExpertStream.ReplacedRunIsCancelledExactlyIf` | desktop/expert_runs.go:95-148 | a run that is replaced by the team's next start is cancelled by it if and only if no finish was reported for the team in between |
| `ExpertStream.ExpertRuns.CacheCollabEvent` | desktop/expert_runs.go:196-246 | reduces the running run of the event's team and no other |
| `ExpertStream.FindLast` | desktop/expert_runs.go:196-246 | the backward scan finds the last message of the expert in the round |
| `SkillNames.SanitizeSkillName` | desktop/browser_console_app.go:503-525 | computes the sanitised name with its collapse loop |
| `SkillNames.SanitizedIsCleanName` | desktop/browser_console_app.go:499-525 | empty or matching the name pattern, no double dash, at most 48 characters |
| `SkillNames.SanitizedIsItsWords` | desktop/browser_console_app.go:503-525 | it is the non-empty words of the text, in lower case and in their order, with single dashes between them, cut to 48 characters |
| `SkillNames.SanitizeIsIdempotentExactlyIf` | desktop/browser_console_app.go:503-525 | sanitising again changes nothing if and only if the cut at 48 characters does not fall right after a dash |
| `SkillNames.SanitizeTwiceIsFixpoint` | desktop/browser_console_app.go:503-525 | two applications reach a fixpoint |
| `SkillNames.OnceIsNotEnough` | desktop/browser_console_app.go:503-525 | one is not enough for a concrete name |
| `SkillDraft.SavedExactlyIf` | desktop/browser_console_app.go:529-551 | a file is saved, and under which name, exactly if it is fenced, names both fields, has a body, and the name and description read from it are acceptable |
| `SkillDraft.SplitIsFenced` | desktop/browser_console_app.go:645-656 | a split file is fenced at the first line that begins with three dashes, and its parts are trimmed |
| `SkillDraft.NoFenceNoFrontmatter` | desktop/browser_console_app.go:645-649 | a text is refused for lack of frontmatter exactly if it does not begin with three dashes |
| `SkillDraft.UnquotedIsTrimmed` | desktop/browser_console_app.go:658-666 | a value without quotes at its ends is only trimmed |
| `SkillDraft.FirstLineCounts` | desktop/browser_console_app.go:658-666 | a field's value is read from the first line that begins with it, and is empty if there is none |
| `SkillDraft.QuotedValueKeepsItsFirstQuote` | desktop/browser_console_app.go:658-666 | of a quoted value after a space the closing quote goes and the opening one stays |
| `SkillDraft.AssembledSplits` | desktop/browser_console_app.go:645-656 | a file of solid header lines between fences splits into its header and its body |
| `SkillDraft.AssembledIsSavable` | desktop/browser_console_app.go:529-551 | such a file with a name, a short description and a body passes the validation, and its name is read back |
| `SkillDraft.EveryDraftIsSavable` | desktop/browser_console_app.go:336-413 | every draft, for any hint and rows, passes the save validation, and its parsed name is the draft's name |
| `SkillDraft.DraftHoldsItsParts` | desktop/browser_console_app.go:336-413 | a draft has its title, the trimmed hint, in front of the table's head and its rows right after that; its name is the sanitised hint, or the default |
| `SkillTrace.NaiveSkillDraft` | desktop/browser_console_app.go:336-413 | the draft of a trace has one numbered row per step in event order, and can be saved |
| `SkillTrace.RowsFollowTheEvents` | desktop/browser_console_app.go:355-406 | the rows of a draft are those of its events in their order, each with the operation, target and value of its event's kind, and exactly clicks into password fields and unknown kinds give none |
| `SkillTrace.RowIsItsStep` | desktop/browser_console_app.go:405-407 | row i has the number i and its step's three fields in their columns |
| `SkillTrace.ScrollIsReadBack` | desktop/browser_console_app.go:386-401 | a recorded "direction screens" gives a scroll of that direction and number; three screens without a number, down without anything |
| `SkillTrace.DecimalIsReadBack` | desktop/browser_console_app.go:397-407 | written numbers read back as themselves |
| `SkillTrace.SecretsNeverReachTheDraft` | desktop/browser_console_app.go:364-386 | what was typed into password and verification fields has no influence on the draft |
| `SkillTrace.TypedTextsWereNoSecrets` | desktop/browser_console_app.go:366-386 | every text a draft types was recorded by an input that is no secret, verbatim |
| `EnvFile.AssignmentIsRead` | desktop/dotenv.go:160-176 | a line KEY=value is read as an assignment to KEY whatever the value, also after `export ` |
| `EnvFile.OtherLinesAreNotRead` | desktop/dotenv.go:160-176 | comments and lines without `=` are not |
| `EnvFile.KeptIsAFilter` | desktop/dotenv.go:101-247 | the kept lines are those not dropped, in their places |
| `EnvFile.OutputHasTheLines` | desktop/dotenv.go:101-130 | the written text has exactly the kept lines, each ended by a line break |
| `Text.TrimTakesSpace` | desktop/dotenv.go:101-247 | trimming takes off the space at both ends and nothing else |
| `EnvFile.RemoveEnvFile` | desktop/dotenv.go:101-130 | writes exactly the lines its scanner does not drop, and leaves the file alone for a blank key |
| `EnvFile.RemoveHomeEnvKey` | desktop/dotenv.go:220-247 | writes exactly the lines its scanner does not drop, and writes exactly if it drops one |
| `EnvFile.EnvFileKeys` | desktop/dotenv.go:160-176 | the keys read are those of the lines that are read as assignments |
| `EnvFile.KeysAreThoseOfLines` | desktop/dotenv.go:160-176 | a key is among them exactly if some line is read as an assignment to it |
| `EnvFile.ScannersAgreeOnLine` | desktop/dotenv.go:101-247 | for a key that does not look like a comment both removers drop the same lines: those read as that key |
| `EnvFile.ScannersAgreeExactlyIf` | desktop/dotenv.go:101-247 | the exact condition under which they agree on every line |
| `EnvFile.CommentKeySeparates` | desktop/dotenv.go:101-247 | a key and a line on which they differ |
| `EnvFile.RemoversKeepTheSameLines` | desktop/dotenv.go:101-247 | for any file text both keep the same lines in the same order, up to blank lines at the end |
| `EnvFile.RemovalRemovesExactlyTheKey` | desktop/dotenv.go:101-247 | the keys read back are the original ones without the removed key |

## Left out

- The rebuild of tabs after a configuration change and `CloseTab`, which set a tab's controller to nil: `ControllerSwap` has tabs that are opened, switched and used by scheduled runs.
- What a build, a model call, a page, a window, a notification or a bot delivery does: only its outcome is a parameter.
- Files and JSON: a disk is a map from path to opaque content; the reading of a `.meta` file is a function of its content, which covers malformed JSON.
- Files that appear between a check and the rename after it, and links; a rename that fails is covered.
- Topic sidecars, the projects index, the profile backfill and the marker of the migration: the sidecar merge removes its source even if writing failed, so conservation cannot be claimed for it.
- A folder (`.ckpt`, subagents) moves as a whole; what is in it is not modelled.
- MediaTokens.MediaTokenStore.Create: tokens are assumed to be distinct, as the source assumes of its random bytes.
- MediaTokens.MediaTokenStore.Get: at the very moment of expiry a token is found unless a cleanup has run, so the equivalence is stated strictly before it.
- ServerOrder.OrderServerViews: `sort.SliceStable` is an insertion sort here; `OrderedIsUnique` shows that every stable sort gives the same list.
- TrialPark.ConsoleTrialGate.DrainReply: a drain ends because only finitely many signals come in, which is the budget parameter; the source's loop has no such bound.
- TrialPark.ConsoleTrialGate.ParkTrialStep: a select may pick any ready case, so which of several ready causes ends a park is open, and that a signalled park ends before its deadline is not claimed.
- TrialRun.BrowserConsoleTrialRun: the prompts and outputs in the events, the cut of outputs to 2000 bytes, the timeouts of the steps, and a step's direction, amount and label, which no substitution touches, are not modelled; the slice of upload files shared with the caller is a value.
- LoopEngine.LoopRun.LoopExecute: one run with stops that land at any point of a round; mutual exclusion of concurrent LoopStart calls is not claimed, because the source checks and sets separately.
- LoopEngine.LoopRun.LoopStop: closing the channel and setting the state is one step here; the instant between them is not modelled.
- SkillTrace.NaiveSkillDraft: which fields only a person can fill in is a parameter, so the pattern of words itself is not modelled.
- SkillNames.SanitizeSkillName: lower-casing is modelled for the runes whose lower case is ASCII; all others are dropped by the next step.
- `cancelExpertRun`, `cancelExpertRunByTab`, and the copy handed out by `GetActiveExpertRun`; a running expert run is assumed to have its cancel function.
- HostRoot.KeySpellsTheDirectory: paths are separated by `/` and links are not followed, as `filepath.Clean` does; the paths of Windows and a working directory that cannot be determined are not modelled.
- TabControllers.App.SetModelForTab: a tab's root is given by its normalised key; the source normalises it at each acquire and release (`HostRoot.KeysAreFixed`).
- Two goroutines that call the same tab's `Approve` are two atomic takes; the call into the tab is not modelled.
- Metrics, netdev, bot connections, calendar, cowork settings, the mobile bridge, browser panel bindings, deep links, hotkeys and prompt heuristics: thin wrappers or single branches.

# OpenAVC verification

A Dafny model of the parts of OpenAVC whose correctness is a statement about whole runs:
who may connect and how that choice survives restarts, how a panel's values reach a
device, the tables that must agree with a simple history, and the windows in which the
audit watches a command. `dafny verify dfyconfig.toml` checks all of it.

## What is modelled

**Who can connect.** `ConfigTree` and `SystemConfig` are the layered configuration:
defaults, then the file, then the environment. `NonInterference` compares two runs under
two environments, and `EnvironmentView` says what a set variable makes the server run with.
`Listen` and `ReachDevices` resolve the two stored choices against the adapters present;
`Settling` and `ListenStart` settle them at a start, and `FirstStart` says what the first
start of a system makes of an earlier release's address; `ListenSockets` binds the plan;
`ListenWatcher` follows the adapter; `SafetyNet` takes a change back unless it is confirmed
in time, and `SafetyNetStarts` follows it through a crash from one start to the next.

**The WebSocket event loop.** `UiChanges` takes the code between two awaits as one step
and lets the loop take the steps of any connection, task or callback in any order;
`UiLoop` is that code, changing the tables in place, `NewestValue` is what whole runs of it
say of the last value a control ran, and `UiTidy` what they leave in the tables.
`RateLimit` holds the two sliding-window limiters and the one specification both meet.
`Presence` is the connection cap and the presence keys.

**Tables against histories.** `SessionTokens` ties the session table to the log of
everything that happened to each token. `PluginRoutes` and `PluginMounts` tie the route
list, the aliases and the generations to the record of who is mounted. `Base64Url` and
`PluginTokens` are the token texts and their parsers.

**The audit.** `CommandPass`, `CommandRuns` and `CommandWindow` are the trial machine: one
trial's events, every run of them, and the code that takes them. `Refusals` attributes the
signs of a refusal; `Summaries` cuts the traffic for the live view and folds the changes.

Code that changes fields in place is a class whose methods are proved against a function
of the old state, and the results about whole runs are lemmas about those functions.
Adapter lists, answers of the system to a bind, clock readings, cuts of a run of disk
writes and the order of events are arbitrary inputs. Clocks do not go back.

## Findings

These promises hold only under a condition. Each is proved with its exact condition,
and where it fails the input is given.

- With fallback on, a bound socket list matches the returned plan if and only if the
  plan's addresses are distinct (`ListenSockets.AgreesExactlyWhenDistinct`). An adapter
  can list one address twice: the inventory joins addresses to names by address
  (`openavc/discovery/network_scanner.py:160-184`), so two interfaces that hold the same
  address fold into one adapter that has it twice (`:274-283`). It never lists 127.0.0.1
  (`:146`), so that is the only way (`ListenSockets.ResolvedIsDistinct`).
- A first start from source is meant to keep listening where `bind_address` did. It stores
  the adapter that lists the address by name and MAC, and matches by MAC first, so it does
  exactly when no adapter listed earlier has that MAC, or that name if it has none (`FirstStart.FirstStartServes`). An
  interface and a virtual LAN on it share one: there the start listens on the other's
  addresses (`FirstStart.SharedMacServesTheOther`).
- `revert` is safe against a crash between any two of its writes, but `save` swallows a
  refused write: the net is lost exactly when the configuration write fails and the later
  writes go through (`SafetyNetStarts.ARevertSurvivesACrash`).
- The kept device-side address is checked against the other adapters' ordinary addresses
  alone, so it can be another adapter's 169.254 address
  (`ReachDevices.KeptOnAnothersLinkLocal`). The mirror comes to hold one through a literal
  choice of it, which is what an earlier control interface that no adapter lists becomes
  (`ReachDevices.MirrorOnAnothersLinkLocal`). A literal address answered without an
  enumeration broadcasts even where no connected adapter holds it
  (`ReachDevices.LiteralIsTakenAsItIs`).
- A file loads exactly when each section its environment writes into is an object
  (`NonInterference.LoadCompletesExactly`), and a start cannot settle without an object in
  `network` (`Settling.StartNeedsNetworkSection`).
- A guest binding can be shared with another plugin exactly when an id holds a colon
  (`PluginTokens.ColonFreeIdsAreNeverShared`). Unmounting a plugin sweeps another's routes
  exactly when the other id goes on from its own with "/ext" or "/guest"
  (`PluginRoutes.SweptExactly`).
- The module text of the commands step says a restarting command's window ends ten seconds
  after the driver is back. Where the driver is back before its own call returns, the code
  watches for the whole declared time and the margin
  (`CommandPass.EarlyReturnIsNotShortened`). The code is modelled.
- A command stopped before its task first ran has no start mark, so its window is all the
  traffic of its connection (`CommandRuns.StoppedBeforeItBegan`).
- "Every drag ends on the value where it stopped" fails exactly when a control's last run
  ends by raising with a value waiting (`NewestValue.NewestValueWins`,
  `NewestValue.ARaiseLosesTheWaitingValue`). `_ui_event` turns every `Exception` of the
  engine into an error frame (`openavc/api/ws.py:646-652`), so on an open connection this
  takes a cancellation raised inside the interaction, another exception that is not an
  `Exception`, or a failure in wording the error or reading the result (`:651-657`).

## Model

| member | source | states |
|---|---|---|
| `ConfigTree.MergeLookup` | openavc/system_config.py:419-442 | what every path of the merged tree holds, exactly: the file's value (merged over the default where both have the path), else the default's, unless the file put something that is not an object on the way |
| `ConfigTree.MergeAbsorbs` | openavc/system_config.py:419-442 | merging the defaults under an already merged tree again changes nothing |
| `ConfigTree.MergeKeepsLeaves` | openavc/system_config.py:419-442 | no path or leaf of the file is lost or changed by the defaults |
| `ConfigTree.MergeInventsNothing` | openavc/system_config.py:419-442 | every leaf of the merged tree came from one of the two trees |
| `ConfigTree.PersistFixpoint` | openavc/system_config.py:714-753 | load, save, load leaves the persisted layer as it is |
| `ConfigTree.ChainKeepsSettings` | openavc/system_config.py:714-753 | through any chain of releases with any defaults (rollback, upgrade), every setting the file held is still there unless a release on the way retired it |
| `ConfigTree.PersistDropsRetired` | openavc/system_config.py:740-747 | a retired key is gone from the persisted layer |
| `SystemConfig.SystemConfigFile.LoadFile` | openavc/system_config.py:714-778 | `load`: defaults, file, retired keys, environment, in that order; the whole new state, and exactly when it fails. What a set variable then reads as is `EnvironmentView`'s |
| `SystemConfig.SystemConfigFile.LayOverrides` | openavc/system_config.py:755-764 | the loop over the override table, against the recursive specification |
| `SystemConfig.SystemConfigFile.SetValue` | openavc/system_config.py:943-956 | `set` writes both layers; the whole new state, and exactly when it fails |
| `SystemConfig.SystemConfigFile.PersistDefaultValue` | openavc/system_config.py:997-1013 | `persist_default` writes the file layer and the raw file, and the effective layer only where no variable holds the key |
| `SystemConfig.SystemConfigFile.SaveFile` | openavc/system_config.py:868-928 | `save` writes exactly the persisted layer, or nothing at all where the disk refuses it |
| `SystemConfig.SystemConfigFile.ConvertSecret` | openavc/system_config.py:833-866 | a stored secret in clear is replaced by its digest and saved, if the disk takes it; a held one is converted in the file layer only |
| `SystemConfig.LoadLayers` | openavc/system_config.py:714-778 | loading leaves the environment out of the persisted layer, and every key no variable holds agrees in both layers |
| `SystemConfig.UnheldKeysRead` | openavc/system_config.py:935-995 | a key no variable holds reads the same through `get` and `stored` |
| `SystemConfig.ShippedTable` | openavc/system_config.py:383-416 | the shipped override table is one the results hold for |
| `SystemConfig.SetReadsBack` | openavc/system_config.py:943-956 | a setting that was set reads back from both layers, held or not |
| `SystemConfig.SetLeavesOthers` | openavc/system_config.py:943-956 | every other setting reads as before |
| `SystemConfig.PersistedReadsBack` | openavc/system_config.py:997-1013 | a kept default reads back from what would be saved, and from the effective view unless a variable holds the key; then that view does not move |
| `EnvironmentView.TableRowReads` | openavc/system_config.py:647-660 | what a loaded configuration reads where a variable of the table is set: true for "true", "1" and "yes" in any case and no other text, the whole number written, the text as it is, a list that is empty exactly when no item is named; unset, or no number where one belongs, the file's value; held exactly where it is read |
| `EnvironmentView.ShippedRows` | openavc/system_config.py:383-416 | the shipped table has one row a key and none for the three choice keys, so the row results hold of all of it |
| `EnvironmentView.BindVariableReads` | openavc/system_config.py:625-632 | where `OPENAVC_BIND` is set, the effective choice read off its text: every network, this computer only, or that one address, held by the variable |
| `EnvironmentView.BindVariableServes` | openavc/listen.py:535-573 | a start with it set listens, whatever the file says, on 0.0.0.0 for an any spelling, on 127.0.0.1 for a loopback one, and for any other text on that address, exactly while the first adapter that lists it is connected, and 127.0.0.1 |
| `EnvironmentView.SettleLeavesHeld` | openavc/listen.py:455-490 | a start settles the file beneath a held choice and runs the held one |
| `EnvironmentView.ControlInterfaceVariableReads` | openavc/system_config.py:641-644 | where `OPENAVC_CONTROL_INTERFACE` is set, device traffic is bound to the address it names, or to none where it names none |
| `Text.ParseIntExactly` | openavc/system_config.py:651-656 | `int()` takes exactly an optional sign and digits, space around them aside, at their decimal value |
| `NonInterference.EnvironmentNeverReachesTheFile` | openavc/system_config.py:714-1013 | two environments, one file that loads under both, one sequence of loads, sets, default writes, secret conversions, saves (taken or refused by the disk) and settlings: the same files are written and the run fails in both or in neither; unheld keys read the same from either layer |
| `NonInterference.LoadCompletesExactly` | openavc/system_config.py:755-778 | a file loads exactly when each section its environment writes into is an object |
| `NonInterference.LoadCompletesInEveryEnvironment` | openavc/system_config.py:755-778 | so it loads in every environment exactly when each section any variable writes into is one |
| `NonInterference.SetStep` | openavc/system_config.py:943-956 | `set` keeps the layers agreeing and changes the persisted layer by exactly that key |
| `NonInterference.PersistStep` | openavc/system_config.py:997-1013 | the same of `persist_default`, held keys included |
| `NonInterference.ConvertStep` | openavc/system_config.py:833-866 | the same of a secret conversion |
| `Listen.MatchAdapterIsFirst` | openavc/listen.py:168-191 | the first adapter with the stored MAC; where none has it the first with the stored name; where none has that the first holding the stored address, if the identity is nothing else; none only where no adapter has any |
| `Listen.RenamedAdapterStillMatches` | openavc/listen.py:168-191 | while some adapter has the stored MAC, renaming adapters does not change which one matches |
| `Listen.CleanIdentityRoundTrip` | openavc/reach_devices.py:128-133 | a clean identity survives being written to the configuration and read back |
| `Listen.FromConfigIsClean` | openavc/listen.py:213-222 | whatever the configuration holds, the choice read from it is clean |
| `Listen.FromConfigReads` | openavc/listen.py:213-222 | the choice read: one of the modes where the setting prints as one, this computer only where it prints as anything else, the stored identity for one adapter alone, and the variable that holds it |
| `Listen.ResolvedWithinChosen` | openavc/listen.py:386-417 | a resolved plan holds only addresses of the chosen adapter |
| `Listen.PlanNeverWidens` | openavc/listen.py:264-346 | through `resolve` and any refusals: loopback is served; an adapter choice binds only the matched adapter and loopback; "no network address left" holds exactly when a problem is attached, exactly when `local_only` |
| `Listen.WildcardOnlyIfHeld` | openavc/listen.py:386-417 | under a choice of one adapter, or of one address, the wildcard is bound exactly when it is connected and reports it as its own address |
| `Listen.WithoutComposes` | openavc/listen.py:339-346 | refusals commute and compose as set union |
| `Listen.WithoutAllIsOne` | openavc/listen.py:339-346 | any chain of refusals is one refusal of their union |
| `Listen.FreshIsNow` | openavc/listen.py:386-417 | a choice of one adapter resolves to exactly the addresses that adapter has while connected, or to the one chosen address while its first holder is |
| `Listen.ServesExactly` | openavc/listen.py:327-337 | a host is served exactly when it is this computer, or an address the chosen adapter has that the bind did not refuse; under every network any is |
| `Listen.ProblemSays` | openavc/listen.py:386-417 | which problem is attached and whom it names, exactly, from the adapters |
| `Listen.MacDigits` | openavc/listen.py:162-165 | of a MAC written without separators every digit is kept, lower-cased |
| `Listen.MacAnyCase` | openavc/listen.py:162-165 | whatever case it is written in, and nothing but hexadecimal digits is kept |
| `Listen.MacIgnoresSeparators` | openavc/listen.py:162-165 | any separator, anywhere, changes nothing |
| `Settling.SettleSettles` | openavc/listen.py:535-573 | one start leaves all five keys settled, the mirror at 127.0.0.1 for this computer only and at 0.0.0.0 otherwise, and writes nothing to disk |
| `Settling.SettleChoiceSettles` | openavc/listen.py:455-490 | settling the choice leaves a stored choice, and every other key, as it was |
| `FirstStart.FirstStartSettles` | openavc/listen.py:433-490 | with no stored choice, the first start stores: every network exactly on an installed type or where the old address is an any spelling; this computer only where it is missing or a loopback spelling; else one adapter, the first that lists the address, or the address itself where none does |
| `FirstStart.FirstStartServes` | openavc/listen.py:420-490 | with nothing held, that start from source listens on 0.0.0.0 or on 127.0.0.1 where the old address meant that, and else on the adapter that lists the old address, which it is exactly when the adapter's stored identity matches it and no earlier one |
| `FirstStart.SharedMacServesTheOther` | openavc/listen.py:433-447 | of two adapters with one MAC, the later one's address is settled as an identity that matches the earlier, and the start listens on that one instead |
| `FirstStart.IdentityMatches` | openavc/listen.py:168-191 | an adapter's own identity finds it again exactly when no earlier adapter has its MAC, or, where it has none, its name |
| `FirstStart.FirstStartReaches` | openavc/reach_devices.py:511-549 | with no device-side choice stored, the first start stores the adapter that lists the earlier control interface, the address itself where none does, and no choice where there was none |
| `Settling.SettledIsFixed` | openavc/listen.py:455-520 | settling a settled configuration changes nothing |
| `Settling.KeepWrites` | openavc/system_config.py:997-1013 | a kept default reads back as written and moves no other key |
| `Settling.PersistKeepsWrite` | openavc/system_config.py:868-913 | a settled key written, saved and loaded again is what was written |
| `Settling.ReloadStaysSettled` | openavc/listen.py:576-598 | after save and reload a settled configuration is still settled, in every environment |
| `Settling.OneStartIsEnough` | openavc/listen.py:535-598 | load, start, save, load again, start: the second start changes none of the keys |
| `Settling.StartNeedsNetworkSection` | openavc/listen.py:535-573 | a start can settle exactly when the file's `network` section is an object or absent |
| `Settling.ResolveAgain` | openavc/reach_devices.py:144-194 | resolving against the address just kept gives that address again |
| `Settling.ShippedNetworkSection` | openavc/system_config.py:220-381 | the shipped defaults and retired keys meet what settling needs |
| `ListenStart.SettleChoiceOf` | openavc/listen.py:455-490 | `settle_choice` in place, against its specification, and whether it settled anything; what it settles is `FirstStart.FirstStartSettles` |
| `ListenStart.RefreshListenMirrorOf` | openavc/listen.py:502-520 | `refresh_mirror` in place, against its specification |
| `ListenStart.SettleReachOf` | openavc/reach_devices.py:511-549 | `settle` and `refresh_mirror` of the device side in place |
| `ListenStart.Process.Start` | openavc/listen.py:535-573 | `start` writes nothing to disk, runs the settled choice resolved against the adapters, and owes a save exactly when one of the five keys moved; what a first one listens on is `FirstStart.FirstStartServes` |
| `ListenStart.Process.SaveSettled` | openavc/listen.py:576-598 | `save_settled` writes once for what starts settled, taken or refused by the disk |
| `ListenStart.StartTwice` | openavc/listen.py:535-598 | after one start and its save, a second start owes no write |
| `ListenSockets.SocketTable.Bind` | openavc/listen_sockets.py:116-128 | a socket the system would not bind is closed again |
| `ListenSockets.SocketTable.CloseAll` | openavc/listen_sockets.py:130-134 | every socket of the list is closed and no other |
| `ListenSockets.RefusedByNumber` | openavc/listen_sockets.py:56-70 | what a refused bind does, by error number: 99 and 10049 drop one of the plan's own addresses under fallback; every other ends the attempt, and only 98 and 10048 are worth another |
| `ListenSockets.TryBind` | openavc/listen_sockets.py:189-209 | one attempt opens exactly the sockets it reports, all still open |
| `ListenSockets.BindForPlan` | openavc/listen_sockets.py:172-210 | for every answer of the system: on success exactly the returned sockets stay open, one per address of the last attempt, which for distinct addresses or without fallback are those of the returned plan; on failure none; only "in use" is retried and at most `max(1, retries)` attempts are made |
| `ListenSockets.AgreesExactlyWhenDistinct` | openavc/listen_sockets.py:172-210 | the sockets are for exactly the returned plan's addresses, whatever the system answers: without fallback always, with it if and only if the plan's addresses are distinct |
| `ListenSockets.ResolvedIsDistinct` | openavc/listen.py:386-417 | against adapters that do not list 127.0.0.1, a resolved plan's addresses are distinct exactly when the adapter's own are |
| `ListenSockets.BindsLoopbackOrWildcard` | openavc/listen_sockets.py:189-209 | on success loopback is bound last, or the wildcard alone |
| `ListenSockets.ResolvedOwnsItsAddresses` | openavc/listen.py:386-417 | resolved plans, with any refusals, are ones the binder's results hold for |
| `ListenWatcher.ListenWatcher.CheckAdapter` | openavc/listen.py:836-864 | a reason to restart exactly when the last `confirm_polls` completed checks all found the chosen adapter with one same list of addresses other than the one resolved (none, when it is gone or unplugged), or all found that one with every address its bind refused usable |
| `ListenWatcher.ListenWatcher.Tick` | openavc/listen.py:825-834 | a restart fires exactly then, read off the adapters, never earlier, at most once per process; a failed poll changes nothing |
| `ListenWatcher.StreakIsReason` | openavc/listen.py:836-864 | the counted streak of one compared key is exactly such a reason |
| `ListenWatcher.WatchChanged` | openavc/listen.py:825-864 | a change that stays is followed: `confirm_polls` completed polls that find the chosen adapter, or the one chosen address, otherwise than at the start restart the server once |
| `ListenWatcher.SameKeySameDifference` | openavc/listen.py:836-864 | the compared key tells differences apart, the marker for "usable" included |
| `ListenWatcher.BindsNeverLookLikeChanges` | openavc/listen.py:836-864 | a check that finds the adapter as it was, with some refused address still unusable, is no reason to restart: what the bind dropped never looks like a change |
| `ListenWatcher.ResolvedThen` | openavc/listen.py:339-346 | whatever the bind refuses, a plan keeps the addresses the adapter had at the start as the ones compared with |
| `ListenWatcher.WatchUnchanged` | openavc/listen.py:825-864 | no number of ticks restarts while the adapters stay as enumerated and a refused address stays unusable |
| `SafetyNet.SafetyNet.Arm` | openavc/listen_safety_net.py:93-117 | arming writes the marker with no clock running |
| `SafetyNet.SafetyNet.NoteListening` | openavc/listen_safety_net.py:129-141 | over the log: the first start that runs a waiting change starts its clock then, a later one leaves it where it was, and any other start leaves no marker |
| `SafetyNet.SafetyNet.Confirm` | openavc/listen_safety_net.py:163-173 | kept exactly when the change runs and this server runs its choice |
| `SafetyNet.SafetyNet.Revert` | openavc/listen_safety_net.py:200-218 | the three disk writes in order, cut short after any number of them |
| `SafetyNet.SafetyNet.Tick` | openavc/listen_safety_net.py:221-233 | where the configuration can be written, a change is taken back exactly when it was started on, never since confirmed, cleared, left or replaced, and the deadline has passed since that first start; the configuration then holds the previous choice |
| `SafetyNet.AfterStarted` | openavc/listen_safety_net.py:129-141 | a start keeps the marker telling the log: it is there, with that clock, exactly while an armed change waits or runs |
| `SafetyNet.AfterConfirmAsked` | openavc/listen_safety_net.py:163-173 | so does a request to confirm |
| `SafetyNet.AfterTicked` | openavc/listen_safety_net.py:221-233 | so does a tick, cut short or not |
| `SafetyNet.RevertedStores` | openavc/listen_safety_net.py:200-206 | a revert leaves the previous choice in the persisted layer, and 127.0.0.1 or 0.0.0.0 for an earlier release |
| `SafetyNet.SettleKeepsChoice` | openavc/listen.py:455-520 | settling leaves a stored choice as it is read |
| `SafetyNet.StartRunsStoredChoice` | openavc/listen.py:213-222 | a start on a file that stores a choice no variable holds runs exactly that choice |
| `SafetyNet.RevertedIsStored` | openavc/listen_safety_net.py:61-73 | record, configuration, file and choice agree: a reverted choice saved and loaded is that choice |
| `SafetyNet.RevertIsCrashSafe` | openavc/listen_safety_net.py:200-218 | after a crash between any two writes the next start either is still due to revert, clock unmoved, or runs exactly the previous choice with the marker gone |
| `SafetyNetStarts.ARevertSurvivesACrash` | openavc/listen_safety_net.py:200-218 | a server loaded a file, then anything was set, settled or saved, and with the new choice on disk its revert was cut short anywhere: the next start still is due to revert, or runs exactly the previous choice with the marker gone, if and only if it is not the case that the disk refused the configuration and took the rest |
| `SafetyNetStarts.RunIsSound` | openavc/system_config.py:714-1013 | no sequence of operations takes away what the next start needs of the file |
| `SafetyNetStarts.OpenFileRuns` | openavc/listen.py:535-573 | a start completes on any file that loads with an object in `network`, in any environment that holds nothing of the choice |
| `SafetyNetStarts.ChoiceStaysUnheld` | openavc/system_config.py:755-778 | without the bind variable nothing of the choice is held |
| `SafetyNetStarts.CutLeavesAnOpenFile` | openavc/listen_safety_net.py:200-218 | whatever the cut, the file a revert leaves is one a start can load |
| `ReachDevices.NeverWidens` | openavc/reach_devices.py:144-194 | traffic of a chosen adapter is bound to that adapter's first address; where it has none, to the last known one unless an adapter present holds it; else to nothing |
| `ReachDevices.KeptOnAnothersLinkLocal` | openavc/reach_devices.py:175-186 | the kept address is another adapter's 169.254 address exactly when the last one was and no other adapter also holds it as an ordinary address |
| `ReachDevices.BroadcastsFromTheChosenAdapter` | openavc/reach_devices.py:98-114 | a broadcast leaves from the chosen adapter exactly while it is connected and has an address, from its first, or from its 169.254 address where it has no other |
| `ReachDevices.MirrorProvenance` | openavc/reach_devices.py:144-186 | over any history of adapters and choices, a kept address was some choice's own at one reading, and at each reading since nobody present held it |
| `Settling.FileMirrorFollows` | openavc/reach_devices.py:511-549 | through any choices saved and any starts, the mirror in the file is the one that history gives |
| `ReachDevices.MirrorOnAnothersLinkLocal` | openavc/reach_devices.py:144-186 | a mirror comes to hold another adapter's 169.254 address: a literal choice of it, then one of an adapter without an address |
| `ReachDevices.Resolver.Forget` | openavc/reach_devices.py:486-492 | the kept answer is dropped |
| `ReachDevices.Resolver.Current` | openavc/reach_devices.py:205-233 | the kept answer is used only for the same choice, while fresh and with no list given; otherwise it is resolved again |
| `ReachDevices.LiteralIsTakenAsItIs` | openavc/reach_devices.py:215-219 | a literal answered without an enumeration broadcasts even where no connected adapter holds it, unlike one resolved against a list |
| `SessionTokens.SessionTokenStore.Prune` | openavc/api/session_tokens.py:114-118 | exactly the expired entries go |
| `SessionTokens.SessionTokenStore.EvictOldest` | openavc/api/session_tokens.py:72-80 | the evicted entry is a least recently used one |
| `SessionTokens.SessionTokenStore.Issue` | openavc/api/session_tokens.py:64-82 | the table stays within its bound, evicts only when full of unexpired entries, and its whole new state |
| `SessionTokens.SessionTokenStore.Validate` | openavc/api/session_tokens.py:84-104 | accepts if and only if the token was issued, not revoked, evicted or cleared, every check so far was under its mint fingerprint, and no gap between refreshing uses is above the TTL; touches no other entry |
| `SessionTokens.SessionTokenStore.Revoke` | openavc/api/session_tokens.py:106-108 | the entry goes, and whether there was one |
| `SessionTokens.AcceptedExactly` | openavc/api/session_tokens.py:64-104 | what the table keeps of a token says exactly what its whole history does |
| `SessionTokens.RejectedForever` | openavc/api/session_tokens.py:84-104 | a rejected token is rejected forever, its mint fingerprint coming back included |
| `SessionTokens.BackgroundCheckNeverExtends` | openavc/api/session_tokens.py:84-104 | a non-refreshing check never extends any token's life |
| `RateLimit.ConnectionLimiter.Receive` | openavc/api/ws.py:256-275 | the deque form answers as the specification and keeps exactly the times in the window |
| `RateLimit.PoppingIsFiltering` | openavc/api/ws.py:265-270 | popping the expired front leaves what the filter form keeps |
| `RateLimit.PeerLimiter.Receive` | openavc/api/isc_ws.py:104-111 | the filter form answers as the same specification, per peer |
| `RateLimit.PeerLimiter.Sweep` | openavc/api/isc_ws.py:30-41 | the sweep changes no history, so no later decision |
| `RateLimit.NoWindowHoldsMore` | openavc/api/ws.py:256-275 | no half-open window of the limiter's length, wherever it starts, holds more accepted messages than the limit |
| `RateLimit.PassesExactlyWhenItMay` | openavc/api/ws.py:256-275 | and no stricter: a message is refused only when some such window would then hold more than the limit |
| `UiChanges.EveryInterleaving` | openavc/api/ws.py:540-619 | every state of every interleaving of messages, tasks, callbacks and teardowns is well formed |
| `NewestValue.NewestValueWins` | openavc/api/ws.py:571-619 | per control: runs never overlap, values run are an in-order subsequence of those received, and with nothing running the last run is the last received, if and only if the control's last run did not end by raising with a value waiting |
| `NewestValue.DragEndsWhereItStopped` | openavc/api/ws.py:578-587 | in a run with no such raise, an idle control's last run is the last value received |
| `NewestValue.ARaiseLosesTheWaitingValue` | openavc/api/ws.py:615-619 | a run of the loop that loses a value: sent 10 and 20, left on 10 |
| `UiChanges.Drains` | openavc/api/ws.py:599-619 | a control runs at most as many values as it was sent |
| `UiChanges.TornDownForGood` | openavc/api/ws.py:284-295 | after teardown both tables are gone, every unfinished interaction was cancelled, and nothing late brings the tables back |
| `UiChanges.LateStepsTouchNothing` | openavc/api/ws.py:548-619 | a late `finally` or done-callback leaves every open connection's tables alone, one reusing the socket id included |
| `UiTidy.EntriesAreInUse` | openavc/api/ws.py:540-619 | in every reachable state an open connection has an entry in the table of interactions exactly while one of its tasks has not been called back, and in the table of waiting values exactly while some control's value is in hand: nothing is left behind |
| `UiTidy.TeardownCancelsItsOwn` | openavc/api/ws.py:284-295 | a teardown cancels exactly the connection's own tasks not called back yet, and nobody else's |
| `UiLoop.EventLoop.OwnUiWork` | openavc/api/ws.py:540-554 | the task and its set, as the step says |
| `UiLoop.EventLoop.RunUiChange` | openavc/api/ws.py:571-596 | the step for an arriving value |
| `UiLoop.EventLoop.LeaveChanges` | openavc/api/ws.py:616-619 | the `finally` of a run |
| `UiLoop.EventLoop.FinishEvent` | openavc/api/ws.py:608-619 | the step at the end of one interaction |
| `UiLoop.EventLoop.RaiseEvent` | openavc/api/ws.py:616-619 | the step when the interaction raises |
| `UiLoop.EventLoop.Completed` | openavc/api/ws.py:548-554 | the done-callback |
| `UiLoop.EventLoop.TearDown` | openavc/api/ws.py:284-295 | the teardown of a connection's interactions |
| `Presence.Hub.TakeSlot` | openavc/api/ws.py:155-161 | a slot is taken before the handshake, and never above the cap |
| `Presence.Hub.ReleaseSlot` | openavc/api/ws.py:162-165 | the slot goes back last, and no key moves with it |
| `Presence.Hub.IntegrationConnected` | openavc/api/ws.py:318-320 | the count is the number of open connections of that name, and its key reads true |
| `Presence.Hub.IntegrationDisconnected` | openavc/api/ws.py:323-329 | the key reads false exactly when the last connection of that name goes, and does not blink before |
| `Base64Url.RoundTrip` | openavc/api/plugin_ext.py:124-129 | decoding undoes encoding for all byte strings (sections 3.2 and 5 of RFC 4648) |
| `Base64Url.QuadIsTheNumber` | openavc/api/plugin_ext.py:124-129 | each four characters are the same number as their three bytes |
| `Base64Url.Rfc4648Vectors` | openavc/api/plugin_ext.py:124-129 | the test vectors of section 10 of RFC 4648, unpadded, and bytes that need the two characters section 5 changes |
| `PluginTokens.PluginTokenRoundTrip` | openavc/api/plugin_ext.py:157-183 | a minted plugin token is accepted for its own plugin until `ttl` after it was minted, and for no other; the expiry told is that time |
| `PluginTokens.PanelTokenRoundTrip` | openavc/api/plugin_ext.py:266-292 | the same of panel tokens |
| `PluginTokens.GuestTokenRoundTrip` | openavc/api/plugin_ext.py:201-233 | the same of guest tokens, whatever the scope holds, among plugin ids without a colon |
| `PluginTokens.GuestHeadsDistinct` | openavc/api/plugin_ext.py:186-233 | two guest bindings share a message only when they are one binding |
| `PluginTokens.ColonFreeIdsAreNeverShared` | openavc/api/plugin_ext.py:186-233 | an id can be confused with a shorter one exactly when it holds a colon |
| `PluginTokens.FamiliesNeverCoincide` | openavc/api/plugin_ext.py:201-292 | guest and panel tokens share a key and never pass as each other |
| `PluginTokens.AcceptedMeansSigned` | openavc/api/plugin_ext.py:165-183 | whatever is accepted carries a good signature of exactly the binding asked for and an expiry not yet past |
| `PluginRoutes.UnderOneMount` | openavc/api/plugin_ext.py:596-600 | a path is under one mount at most (ids and aliases without a slash) |
| `PluginRoutes.EveryHistoryAgrees` | openavc/api/plugin_ext.py:458-607 | after any mounts, remounts and unmounts: the routes under each mount are its latest router's in order, the rest are the app's own in order, every table lists exactly what is mounted, and each alias has one owner and is that owner's guest router route for route |
| `PluginRoutes.LatestExtIsMounted` | openavc/api/plugin_ext.py:458-510 | mounting records this router and these panel paths as the plugin's and moves no one else's |
| `PluginRoutes.UnmountGuestRemovesOwned` | openavc/api/plugin_ext.py:543-553 | unmounting removes the guest router and the aliases the plugin held, and nothing else |
| `PluginRoutes.LatestGuestIsMounted` | openavc/api/plugin_ext.py:517-593 | mounting adds the router, and the alias exactly when no other plugin holds it and no live route begins with it |
| `PluginRoutes.FirstSegmentIs` | openavc/api/plugin_ext.py:559-593 | what a route is compared by: the alias up to the end of a path segment, leading slashes aside |
| `PluginRoutes.StoppedForever` | openavc/api/plugin_ext.py:402-443 | the policy of a stopped or replaced registration refuses forever |
| `PluginRoutes.LatestIsLive` | openavc/api/plugin_ext.py:402-443 | the registration just made lets requests through, and no other number does for its mount |
| `PluginRoutes.ReplacedStops` | openavc/api/plugin_ext.py:402-443 | unmounting or remounting stops a registration, and nothing else does |
| `PluginRoutes.SweptExactly` | openavc/api/plugin_ext.py:596-607 | unmounting a plugin whose id holds no slash sweeps another mount's route if and only if the other id begins with this id and "/ext" (or "/guest") on a segment boundary |
| `PluginMounts.PluginHost.UnmountPrefix` | openavc/api/plugin_ext.py:596-607 | the filtered route list replaces the old one |
| `PluginMounts.PluginHost.MountPluginRouter` | openavc/api/plugin_ext.py:458-502 | the whole new state; a malformed pattern list changes nothing |
| `PluginMounts.PluginHost.UnmountPluginRouter` | openavc/api/plugin_ext.py:505-510 | the whole new state |
| `PluginMounts.PluginHost.MountPluginGuestRouter` | openavc/api/plugin_ext.py:517-540 | the whole new state |
| `PluginMounts.PluginHost.UnmountPluginGuestRouter` | openavc/api/plugin_ext.py:543-553 | the loop over the aliases removes the one the plugin owns |
| `PluginMounts.PluginHost.MountGuestAlias` | openavc/api/plugin_ext.py:559-593 | mounted unless another plugin holds the alias or a live route has it as its first segment |
| `CommandPass.FinishingIsIdempotent` | openavc/audit/commands.py:968-988 | finishing again, whenever, changes nothing |
| `CommandPass.PressesReachTheCapAtMost` | openavc/audit/commands.py:692-705 | any number of "Wait longer" presses never moves an end past the cap, and short of its last millisecond they add exactly what was asked |
| `CommandPass.ReturnedKeeps` | openavc/audit/commands.py:912-936 | the end set when the call returns is inside the cap |
| `CommandPass.ReturnedInNumbers` | openavc/audit/commands.py:912-941 | how long a returned command is watched, in numbers: the longest of the usual span, the declared restart seconds and the margin, and the poll interval and 2 seconds within the ceiling; the usual span where the call failed; none where nothing was sent |
| `CommandPass.CapInNumbers` | openavc/audit/commands.py:692-705 | how far "Wait longer" goes: the ceiling, or the declared restart seconds and the margin where that is longer, from the return on; refused in the last millisecond |
| `CommandPass.GoneDropsOk` | openavc/audit/commands.py:856-863 | a drop is recorded after the last return, and only while none is open |
| `CommandPass.BackDropsOk` | openavc/audit/commands.py:865-869 | a return closes the open drop, in time order |
| `CommandPass.ComingsAndGoings` | openavc/audit/commands.py:856-874 | while a command is watched a drop is recorded when the device goes and was not away, and closed when it is back and was; nothing recorded earlier changes |
| `CommandPass.ReturnShortensRestart` | openavc/audit/commands.py:865-874 | the driver back after its call returned ends a restarting command's window within `after_reconnect_seconds` |
| `CommandPass.EarlyReturnIsNotShortened` | openavc/audit/commands.py:865-874 | the driver back before its own call returned does not: the window runs for the declared seconds and the margin, and no later return shortens it |
| `CommandPass.ClosesAfterUsualSpan` | openavc/audit/commands.py:936-957 | a window nothing cut short is watched for its usual span at least, and a restarting command's for its declared seconds and the margin |
| `CommandRuns.EveryRunKeeps` | openavc/audit/commands.py:595-988 | every run keeps: all trials but the last done, numbers and attempts without a hole, each sent after the one before was over, drops and returns alternating, ends inside the cap, batch counts adding up |
| `CommandRuns.TickCloses` | openavc/audit/commands.py:943-957 | a turn of the loop closes the window exactly when the connection stopped, the end has come, or the usual window is over and the awaited value was read back with no "Wait longer" pressed |
| `CommandRuns.EndNowCloses` | openavc/audit/commands.py:707-714 | after "Stop watching" the next turn of the loop closes the window |
| `CommandRuns.WindowHoldsWhatArrived` | openavc/audit/commands.py:440-475 | through any events, a command's window ends at exactly what its connection had carried when the event that ended it came: it holds what arrived from its start to then |
| `CommandRuns.TimesCounts` | openavc/audit/commands.py:752-800 | an attempt number is one more than the number of earlier trials of that command |
| `CommandRuns.WindowsShareNothing` | openavc/audit/commands.py:440-475 | two commands' windows on one connection share no traffic entry, in any run, once the later one's task began |
| `CommandRuns.StoppedBeforeItBegan` | openavc/audit/commands.py:1167-1180 | a command stopped before its task ran is given all its connection's traffic |
| `CommandRuns.StoppedOk` | openavc/audit/commands.py:1167-1180 | after a stop nothing is being sent or watched, and the record is well formed |
| `CommandWindow.Commands.Send` | openavc/audit/commands.py:603-662 | refused exactly while something is being sent or watched or nothing is connected; otherwise one trial is added, of that command, on the latest connection |
| `CommandWindow.Commands.OpenTrial` | openavc/audit/commands.py:752-800 | number, attempt and distance from the previous command |
| `CommandWindow.Commands.RunQueries` | openavc/audit/commands.py:716-737 | the batch of exactly these queries starts, or nothing changes |
| `CommandWindow.Commands.NextTurn` | openavc/audit/commands.py:739-750 | the next query in order is opened on the latest connection and begun at once, or the batch ends |
| `CommandWindow.Commands.Return` | openavc/audit/commands.py:912-941 | the new end, in numbers: the declared restart seconds and the margin, the next poll's reply and the usual span, whichever is longest, or what a failed call leaves |
| `CommandWindow.Commands.Tick` | openavc/audit/commands.py:943-957 | a turn of the watching loop |
| `CommandWindow.Commands.CloseWindow` | openavc/audit/commands.py:739-750 | the record is closed, and in a batch the next query opened without a pause |
| `CommandWindow.Commands.Extend` | openavc/audit/commands.py:692-705 | "Wait longer", or a refusal that changes nothing |
| `CommandWindow.Commands.EndNow` | openavc/audit/commands.py:707-714 | "Stop watching" |
| `CommandWindow.Commands.OnGone` | openavc/audit/commands.py:856-863 | the drop handler |
| `CommandWindow.Commands.OnBack` | openavc/audit/commands.py:865-874 | the return handler |
| `CommandWindow.Commands.Finish` | openavc/audit/commands.py:968-988 | the record is closed once |
| `CommandWindow.Commands.Stop` | openavc/audit/commands.py:1167-1180 | the whole new state, a task that never ran included |
| `Refusals.Attribute` | openavc/audit/commands.py:1089-1161 | every error and every `last_error` that said something is counted once, as the command's own (no later than the driver's next request, and within 2 seconds of the return) or in one later group; the text reported is the last own one that says something; the groups are one per text, with its first sign, their exact number and the request that sign answered, in the order they started |
| `Refusals.OthersAreTheRest` | openavc/audit/commands.py:1117-1140 | the command's own signs and the later ones are all of them, each once |
| `Refusals.ReportedText` | openavc/audit/commands.py:1125-1130 | the text reported is that of the last own write that says something, or where none does of the last own error that does |
| `Refusals.NonEmptySaid` | openavc/audit/commands.py:1126 | writes that say something are kept, each as often as it came, and no other |
| `Refusals.RequestBeforeIsNearest` | openavc/audit/commands.py:1145-1146 | the request a later refusal is put down to is the nearest one before it |
| `Refusals.GroupLater` | openavc/audit/commands.py:1132-1155 | one group per text, in the order first seen, with the first sign and the exact count, and the counts add up to all of them |
| `Refusals.NextFollowsOwn` | openavc/audit/commands.py:1108-1117 | the driver's next request is the one right after the message the traffic view picks as the command's own |
| `Refusals.LaterAnswersLater` | openavc/audit/commands.py:1141-1153 | a refusal past the next request is put down to that request or a later one; one only too late by the clock never is |
| `Refusals.SortedKeeps` | openavc/audit/commands.py:1134-1140 | the sort orders by place, then time, and loses nothing |
| `Summaries.OwnSendIsARequest` | openavc/audit/commands.py:1187-1204 | what is picked as the command's own message is a whole message sent to the device |
| `Summaries.OwnRequestIs` | openavc/audit/commands.py:1187-1204 | it is the latest of those sent before the call returned, and where none was, the first of all |
| `Summaries.LiveTrafficRestores` | openavc/audit/commands.py:1335-1351 | at most 40 entries are shown, in order; the gaps put back give each its own place and account for all the traffic |
| `Summaries.OwnMessageIsShown` | openavc/audit/commands.py:1335-1351 | the command's own message is always shown, with the 20 entries from it on |
| `Summaries.NewestAreShown` | openavc/audit/commands.py:1335-1351 | the newest 20 entries are always shown, and 40 in all where there are as many |
| `Summaries.MovedValues` | openavc/audit/commands.py:1354-1380 | one record per key in first-seen order: first old value, last new value, exact count, and whether it went back |
| `Summaries.NetEffect` | openavc/audit/commands.py:1354-1380 | on a log that joins up, a key read its first old value before and reads its last new value after |
| `Summaries.WentBackIsNoChange` | openavc/audit/commands.py:1376-1379 | the records not marked as having gone back are exactly the values left different |

## Left out

- Sockets, files, subprocesses, TLS and asyncio itself: a bind's answer, whether the disk takes a write and the order of tasks are inputs, and an atomic file write is one step. The error numbers of a refused bind are those of Linux.
- JSON text, the order of keys in a section and shared sub-objects: a tree is a value. A nested object or list printed into a setting is one opaque text.
- Unicode beyond Latin-1 in stripping and lower-casing, and underscores or other digits in Python's `int()`.
- HMAC, SHA-256 and UTF-8: `PluginTokens.Crypto` takes them as given functions, the text coding as one that decodes what it encodes. How a signing key is derived from the instance's secret is an input.
- Fresh random session tokens are assumed never to have been minted before, and the session table to allow at least one entry.
- `inherited_for_plan`, `PushListeners`, the preview sentences and `keeps_connection` of the listener, and `kept_broadcast_sources`: they repeat the shape of what is modelled, or build sentences.
- The safety net's labels and phrases in the marker, and reading a marker that is not an object.
- Login reset and claim, which are meant to depend on the environment, so they have no place in `NonInterference.EnvironmentNeverReachesTheFile`.
- `parse_panel_paths`: mounting takes the parsed patterns, or their absence where parsing raised. The rate limiter's media patterns and the standard prefixes of the aliases are not modelled, nor are the policies' answers beyond whether a registration is still live.
- A `ui.change` value's event, the hold of other interactions and everything the engine does inside `_ui_event` are opaque: a step that may take any time, and may raise.
- The panel gate and the login in front of a connection; subscriptions to logs, events and audits.
- The audit's catalog, parameter checks, declared effects and sentences; whether a value has been read back and whether any byte was sent are inputs of `CommandRuns.Take`. The settings pass is the input `others` of a send. A file command is a command like any other.
- Two readings of the clock in one handler are one reading, and rounding for display is left out.
- Secret redaction and the text of a request in a later refusal group: the group names the request by its place in the traffic.
- Changes after the 500th in one window: the code keeps the first 500, and `Summaries.NetEffect` speaks of those kept.
- PluginRoutes.SweptExactly: the unmount is of an id without a slash; what the unmount of an id with one sweeps is not said.
- UiChanges.Drains: counts the runs of one control; it does not bound how long a run takes.
- What a call that raises leaves behind of its earlier assignments in the configuration: the methods of `SystemConfigFile` say exactly when they fail, and the whole new state where they do not.

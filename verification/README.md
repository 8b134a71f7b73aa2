# wg-feed: the client's sync-and-reconcile engine

This project models how the wg-feed client keeps WireGuard tunnels in step with the feeds a user subscribed to,
together with the parts of the wire format that this depends on, and proves what the client promises over whole
runs. Check it with `dafny verify dfyconfig.toml`.

| file | what it holds |
|---|---|
| `Text`, `Lists`, `Model` | trimming, duplicate-free lists, feed documents and the state file as values |
| `Device` | the tunnel backend: profiles by name, and a history in which every call's outcome is up to the system |
| `Reconcile`, `Agreement`, `Runs`, `BackendCalls` | reconciliation as functions of the recorded table; when the backend agrees with the document; sticky flags and retries over runs; which calls are made, and that what is installed is what is recorded |
| `Client` | the reconciler as it runs: on a loaded state whose tunnel maps are shared references |
| `Store`, `UpdateOutcome`, `RevisionGate` | the three operations on the state file, as functions; non-interference; what becomes of each operation, case by case; what the last reconciled revision says |
| `RecordedNames` | which names are recorded after any run of reconciliations, failed or not |
| `DaemonMethods`, `Installed`, `Leftovers`, `SharedNames` | the daemon's methods over file, backend and claim table; the backend over whole runs: what stays installed, what is left behind, and what feeds with a name in common do to each other |
| `Daemon`, `DaemonInvariants`, `DaemonTerminal`, `DaemonSync`, `DaemonDeliveries`, `DaemonScenarios` | the feed loops as interleaved atomic steps; what every reachable state keeps; when loops stop of themselves; that every response is applied, over whole runs; the first sync, a restart and falling back to polling, step by step |
| `DaemonRuns`, `DaemonForeign`, `DaemonFresh`, `DaemonBackend` | what whole runs do to the state file; feeds that change their id; runs that start without a salt; what whole runs do to the backend |
| `Restart`, `OneShot`, `OneShotRequests` | what an update leaves behind for the next start and the time offline; the one-shot path; whom it contacts and what it makes of the answer |
| `EndpointOrder`, `Recency` | the endpoint preference list and what it means over runs of promotions |
| `Failover` | one pass over the endpoints |
| `Sse`, `ETag`, `Polling` | the event stream, entity tags and conditional polling |
| `Witnesses` | concrete failing inputs for the properties that hold only under a condition |
| `WgQuick`, `WgSections` | the wg-quick reader; what each section and each line of a file says |
| `Keyfile`, `Rebuild`, `RebuiltValues` | the NetworkManager connection file; what a rebuild keeps and replaces; what the rebuilt file says, key by key |

How the parts fit together. `Reconcile` says what one reconciliation does to a table, and which calls it makes.
`Client.ApplyFeed` is proved to do exactly that on the heap, with the backend's history as witness, including what
aliasing leaves behind after an error. `Store` lifts it to a whole state file, and every method of
`DaemonMethods.Daemon` is proved to make the same change to its file as the matching function of `Store`, while its
history of operations and calls stays valid. `Installed` proves what such a history says of the backend. The
specification functions are not taken on trust either: `BackendCalls`, `UpdateOutcome`, `DaemonDeliveries`,
`DaemonScenarios`, `OneShotRequests`, `WgSections` and `RebuiltValues` say what each operation comes to in terms of
the document, the message, the list or the file alone, with lookups of their own, and prove that the specification
does that. `Daemon` interleaves the loops; each step saves at most one operation of `Store`, so `DaemonRuns` and
`DaemonBackend` carry the results about operations over to every run of the daemon.

Hypotheses that are named where they are used: `HashWorks` (the salted hash neither fails nor collides on these
endpoints), `Validates` and `Faithful` (decryption yields valid documents of the URL's own feed), `RunGenuine` (a feed
keeps its id in what it sends unencrypted), `Versioned` (among the updates of one feed, a revision determines the
document; only the revision gate needs it), `OpOwned` (different feeds use different profile names; `ProperOwners`
adds that no feed uses a blank or untrimmed one). Nothing is assumed of what a failed backend call leaves behind,
except that it stays under the name called.

## What turned out not to hold

Where a property one would expect is false of the code, the code is kept, a failing input is given, and the exact
condition is proved.

- A successful reconciliation does not always install the document: a dropped tunnel's old name that another tunnel
  takes over is removed after it was applied, and swapped names clash likewise (`DroppedNameTakenOver`,
  `SwappedNames`). `AgreesExactlyWithoutClashes` gives the exact condition on the recorded names;
  `SecondSuccessRepairs` shows that reconciling once more repairs it.
- A retry does not always record what an uninterrupted call would have: failing in the middle of an unforced rename
  loses a flag set by the user, against section 5.4 of the protocol draft (docs/draft-wg-feed-00.md)
  (`RenameLosesFlag`). `EntryRetriesConvergeExactly` says exactly when.
- Profiles can be left installed and recorded no more, against section 5.5 of the draft: the first reconciliation of a
  feed loses its records when it fails (`FirstFailureLeavesProfile`). `LeftOverExactly` gives the exact condition over
  whole runs, by records, document and point of failure; `CarefulAbandonsNothing` gives the only four causes.
- Feeds that use the same profile name overwrite each other's profiles (`SharedName`). `StaysInstalledExactly` says
  exactly when a feed's tunnels are still installed, with no assumption on names.
- After a failed reconciliation, a server that goes back to the revision last reconciled is gated away, and the
  half-changed tunnels stay (`RolledBack`). `RollbackIsGatedAway` says exactly when the recorded tunnels are right, and
  `RecordsExactly` does so for any run of failures and successes.
- Conditional requests go wrong for revisions with a comma, although section 3.3 of the draft lets a revision be any
  string: `SoundExactlyWithoutCommas`, with `CommasMatchAnother` and `CommasKeepStaleDocument` as failing inputs. Quotes
  and backslashes do no harm, since both sides quote in the same way.
- A reconciliation that failed is not retried by polling: `NextPollBringsNothing`.
- Section 4.1 of the draft makes a changed feed id terminal. The code never compares the two ids: a running loop files
  another feed's document under that feed and goes on (`ForeignEventIsFiled`, `ForeignPollIsFiled`).
  `OnlyClaimantsExactlyWithOwnIds` shows that operations on a feed are its claimant's exactly if all ids are kept.
- Section 3.5 of the draft makes a document that cannot be decrypted terminal. While streaming, polling and
  bootstrapping it is, unless the key in the URL cannot be read or the ciphertext breaks off
  (`SilentExactlyAfterTerminalPass`, `StreamEndsTerminallyExactly`, `BootstrapStopsExactly`). While offline an
  unreadable cache ends nothing (`UnreadableCacheIsIgnoredOffline`); at the start any unreadable cache ends the loop
  (`UnreadableCacheEndsTheStart`).
- A rebuilt connection file can keep an MTU, an address or name servers that the configuration no longer has, since they
  are only written when it has some. `StaleExactly` says which values come from the configuration alone, with a file
  that shows the difference for each of the others.

## Model

| member | source | states |
|---|---|---|
| Client.ApplyFeed | internal/client/client.go:121-170 | on the heap, the state afterwards and the error are those of `Store.ApplyFeed`, where changes to an existing map show even after an error and a new map is lost; the calls made are those of a reconciliation that succeeded, or that stopped at the failing tunnel |
| Client.ApplyTunnels | internal/client/client.go:131-155 | the loop over the document's tunnels leaves the table of `AppliedTo`, or the one of `Interrupted` at the first failure, and makes exactly the calls of `CallsUpTo`, all applied up to there |
| Client.ApplyTunnel | internal/client/client.go:132-154 | one tunnel: a renamed one is removed under its recorded name and forgotten first; recorded only if it could be applied |
| Client.SweepTunnels | internal/client/client.go:157-166 | every recorded tunnel that is not listed is removed under its recorded name, once, in any order, whether or not the removal works, and forgotten |
| Client.LoadedState.constructor | internal/client/state/state.go:34-56 | loading gives every feed a tunnel map of its own, except where the file has none |
| Reconcile.SuccessRecordsDocument | internal/client/client.go:135-166 | after success the recorded tunnels are exactly the document's ids and names, with the flags judged against the table at the start |
| Reconcile.JudgedAtStart | internal/client/client.go:135-150 | with distinct ids no earlier tunnel of the document changes how a later one is judged |
| Agreement.CallsFollowLast | internal/client/client.go:131-155 | the last call under a name is that of the last tunnel that takes the name or gives it up |
| Agreement.PresentExactlyWhenSettled | internal/client/client.go:131-166 | after a success whose removals worked, a tunnel is installed with its configuration and effective flag if and only if it, or a later equal one, is the last to take its name and no rename or dropped tunnel takes it away |
| Agreement.AgreesExactlyWithoutClashes | internal/client/client.go:144-166 | with distinct names, all tunnels are installed if and only if no dropped tunnel's recorded name and no later rename's old name is one of theirs |
| Agreement.OtherNames | internal/client/client.go:144-166 | names the feed gave up and does not list are gone; names it neither had nor lists are as they were |
| Agreement.AgainChangesNothing | internal/client/client.go:135-168 | reconciling the same document again changes no record and removes nothing |
| Agreement.SecondSuccessRepairs | internal/client/client.go:121-170 | a second success with the same document installs every tunnel, whatever clashed in the first one, and makes no removal |
| BackendCalls.NextCalls | internal/client/client.go:135-153 | tunnel by tunnel and in document order: a removal of the old name first if the tunnel was recorded under another non-blank one, then one application with the document's configuration and the flag recorded at the start, unless there is none or the feed forces its own |
| BackendCalls.InstalledAsRecorded | internal/client/client.go:136-154 | after a success every tunnel that keeps its name is installed with the document's configuration and exactly the flag recorded for it |
| BackendCalls.GivenUpIsGone | internal/client/client.go:144-166 | a recorded name that no tunnel asks for is free after a success, if its tunnel is no longer listed or listed under another name |
| BackendCalls.OtherProfilesKept | internal/client/client.go:121-170 | profiles under names neither listed nor recorded are left alone, whether or not the reconciliation fails |
| BackendCalls.InterruptedRename | internal/client/client.go:144-153 | a rename that fails half-way has already removed the old profile |
| BackendCalls.LastDocumentIsInstalled | internal/client/client.go:135-154 | over any run of successes, what is installed has the last document's configuration and the flag of the document that last created or forced the tunnel |
| BackendCalls.KeptFlagIsInstalled | internal/client/client.go:135-154 | and while no document forces it, the flag recorded at the start, a tunnel switched off staying off |
| Witnesses.DroppedNameTakenOver | internal/client/client.go:144-166 | a tunnel takes over a dropped tunnel's name: two valid documents, every call works, and it is not installed |
| Witnesses.SwappedNames | internal/client/client.go:144-150 | two tunnels swap names: valid documents, every call works, and the first is not installed |
| Runs.FlagsStick | internal/client/client.go:135-154 | over any run of successes the recorded flag is that of the latest document that created or forced the tunnel, across renames |
| Runs.FlagsStickFromStart | internal/client/client.go:135-154 | while documents list the tunnel and none forces it, the flag recorded at the start stays |
| Runs.SomeDocumentDecides | internal/client/client.go:135-154 | every recorded tunnel falls under one of these two cases |
| Runs.EntryFailureKeepsProgress | internal/client/client.go:126-154 | a failure records nothing at all of a map that was nil; of an existing one the earlier tunnels are recorded, later and dropped ones are as they were, and the failing one is forgotten exactly when it was being renamed |
| Runs.EntryRetriesConvergeExactly | internal/client/client.go:121-170 | after any number of failures anywhere, a success leaves the feed's entry that an uninterrupted one would have, if and only if there was no map yet or no failure hit an unforced rename whose flag differs before an attempt got past it |
| Witnesses.RenameLosesFlag | internal/client/client.go:135-154 | a tunnel that was switched off is renamed and fails once: the retry switches it on, an uninterrupted call would not have |
| Store.UpdateTouchesOnlyItsFeed | internal/daemon/daemon.go:387-429 | an update changes no other feed's entry than that of its document's id |
| Store.SaltStays | internal/client/state/bootstrap_url_map.go:46-64 | a salt, once there, is never changed by any operation |
| Store.ExecReadsOnlyItsFeed | internal/daemon/daemon.go:387-454 | what an operation makes of its feed's entry depends on nothing but that entry and the salt |
| Store.RunIsEntryRun | internal/daemon/daemon.go:248-262 | after any run of operations of any feeds, an entry is what its own operations alone, in order, make of it |
| Store.OnlyOwnOperationsMatter | internal/daemon/daemon.go:248-262 | non-interference: leaving out all other feeds' operations changes neither the entry nor the salt |
| RevisionGate.TunnelsMatchRevision | internal/daemon/daemon.go:411-454 | over every run, unless a reconciliation failed since the last successful remote one, the recorded tunnels have exactly the ids and names of the document of the revision last reconciled, also after reconciling from the cache |
| RevisionGate.RollbackIsGatedAway | internal/daemon/daemon.go:416-427 | after a failed new revision, an update that goes back to the revision last reconciled leaves the half-changed tunnels as they are; they are those of the revision gone back to, if and only if the failed document had got to none that was new, called otherwise or being renamed |
| UpdateOutcome.WorkExactly | internal/daemon/daemon.go:387-422 | an update calls for work at the backend if and only if it names a feed, its URL has a key, and its revision is blank or not the one its feed reconciled last; the work is its own tunnels with those recorded for its feed |
| UpdateOutcome.RefusedUpdate | internal/daemon/daemon.go:387-399 | an update that names no feed changes nothing, and one whose URL has no key leaves at most a salt, each with its error |
| UpdateOutcome.UpdateIsNoted | internal/daemon/daemon.go:397-414 | whether gated, failed or done, an update leaves its URL mapped to its feed and its time to live and cache recorded, and all other entries as they were |
| UpdateOutcome.SameRevisionKeepsRecords | internal/daemon/daemon.go:416-419 | an update of the revision last reconciled changes no recorded tunnel and is no error |
| UpdateOutcome.NewsIsRecorded | internal/daemon/daemon.go:416-427 | any other update whose tunnels can all be applied, a feed's first included, leaves exactly its tunnels recorded, with names and flags, and its revision as the one last reconciled |
| UpdateOutcome.FailureKeepsRevision | internal/daemon/daemon.go:421-423 | one that fails names the failing tunnel and leaves the revision last reconciled as it was |
| UpdateOutcome.RetriedUntilDone | internal/daemon/daemon.go:416-427 | the same update calls for work again if and only if it failed |
| UpdateOutcome.CacheOutcome | internal/daemon/daemon.go:431-453 | the four ways a reconciliation from the cache can end, by what is cached and whether it opens; it is never gated and changes nothing but tunnels |
| UpdateOutcome.CacheIsRecorded | internal/daemon/daemon.go:452 | if all its tunnels can be applied, exactly the cached document's tunnels are recorded then, with names and flags |
| UpdateOutcome.LookupOutcome | internal/daemon/daemon.go:192-230 | what a setup URL resolves to, by its key, its mapping and the cached document, which corrects the mapping if it names another feed |
| UpdateOutcome.StoredOrderIsOfKeys | internal/client/state/bootstrap_url_map.go:157-224 | after an update the stored order has exactly the salted keys of the document's endpoints, and never an endpoint itself |
| RecordedNames.RoundNames | internal/client/client.go:131-168 | what one reconciliation, failed or not, makes of the name recorded for one tunnel id, from that name, the document and the point of failure alone |
| RecordedNames.RecordsExactly | internal/daemon/daemon.go:411-454 | over every run of a feed's operations, whatever failed, the recorded tunnels are those of a given document, that of the revision last reconciled for one, if and only if for every id the documents and points of failure lead to the name it lists |
| Witnesses.RolledBack | internal/daemon/daemon.go:416-427 | a new revision adds a tunnel and fails at the next, the server goes back, and the added tunnel stays recorded |
| DaemonMethods.Daemon.ClaimFeedID | internal/daemon/daemon.go:232-246 | a feed id is granted exactly when nobody claimed it before, and a claim is never changed |
| DaemonMethods.Daemon.ApplyRemoteUpdate | internal/daemon/daemon.go:387-429 | the file becomes that of `Store.ApplyRemoteUpdate`, also after an error, unless it cannot be loaded or saved; the backend calls are those of the work due, and the history of the daemon stays valid |
| DaemonMethods.Daemon.MaybeReconcileFromCache | internal/daemon/daemon.go:431-454 | the same for a forced reconciliation from the cache, which leaves the last reconciled revision alone; before its time it does nothing |
| DaemonMethods.Daemon.ResolveFromStateCache | internal/daemon/daemon.go:192-230 | the file and the answer are those of `Store.Resolve`: the mapped feed, or the one a cached document names, with its endpoints in preference order |
| DaemonMethods.Daemon.NoteUpdate | internal/daemon/daemon.go:402-414 | endpoint order, time to live and cache are recorded before the gate, and nothing else |
| Client.LoadedState.ReconcileEndpointOrder | internal/client/state/bootstrap_url_map.go:157-165 | the feed's stored order becomes the reconciled one; a blank id changes nothing |
| Client.LoadedState.OrderEndpoints | internal/client/state/bootstrap_url_map.go:91-101 | unknown feeds get the endpoints back unchanged, known ones in the stored order |
| Client.LoadedState.SubscriptionURLKey | internal/client/state/bootstrap_url_map.go:46-82 | a salt is drawn exactly when there is none, and the key is that of the URL under the salt then stored |
| Installed.NameIsItsFeedsAlone | internal/daemon/daemon.go:387-454 | non-interference at the backend: with names owned by feeds, what is installed under a name is what its feed's own operations alone would have installed |
| Installed.FeedStaysInstalled | internal/client/client.go:121-170 | after a feed's last work at the backend succeeded, and whatever other feeds did since, all its tunnels are installed with their configuration and flag if and only if its names did not clash |
| BackendCalls.InstalledAsFiled | internal/daemon/daemon.go:387-454 | after any run of operations, under each name that a feed keeps there is the configuration of its last successful work's document, with the flag that the state file then records |
| SharedNames.WorkDecides | internal/client/client.go:121-170 | after one operation a name holds what its document and records say: nothing if the name was dropped or renamed away last, what the last tunnel that took it asks for, what a failed call left, and otherwise what was there |
| SharedNames.StaysInstalledExactly | internal/client/client.go:121-170 | without any assumption on who owns which name: after a feed's success at some operation, its tunnels are installed at the end of the run if and only if for each name the last later operation, of whatever feed, that lists it, renames away from it or drops it leaves it as wanted, or there is none and the feed's own names did not clash |
| Witnesses.SharedName | internal/client/client.go:150-153 | two feeds with one profile name both succeed without a clash of their own, and the first one's tunnel is gone |
| Leftovers.UnrecordsExactly | internal/client/client.go:126-168 | a name that an operation called is unrecorded afterwards if and only if, by the records before, the document and the point of failure: the state is unsaved and the name was not recorded; or it succeeded and does not list the name; or it failed and there was no map yet; or it failed with a map, no tunnel before has the name and no old record under it survives |
| Leftovers.LeftOverExactly | internal/client/client.go:126-168 | over any run of operations of any feeds, a profile is installed under a feed's name and recorded no more, if and only if some operation's last call under the name left something, that guard says the name is unrecorded, and no later call names it |
| Leftovers.RecordingKept | internal/client/client.go:131-168 | an operation that never calls a name leaves it recorded or unrecorded as it was |
| Leftovers.CarefulAbandonsNothing | internal/client/client.go:126-168 | the only ways to abandon a profile: an unsaved state, a failure before there was a map, a removal that failed and left it, and a failed Apply that left something |
| Leftovers.NothingLeftOver | internal/client/client.go:126-168 | if none of these ever happens, whatever is installed under a feed's name is recorded |
| Leftovers.OnlyListedInstalled | internal/client/client.go:157-166 | and right after a success only names of its document are installed |
| Witnesses.FirstFailureLeavesProfile | internal/client/client.go:126-153 | a first reconciliation stops at its second tunnel, a document without the first tunnel then succeeds, and the first profile stays |
| DaemonInvariants.ReachableClaims | internal/daemon/daemon.go:72-190 | in every reachable state each active loop holds the claim on its feed id, every claim was made by one loop under its own URL, and every loop's variables fit its phase |
| DaemonInvariants.OneLoopEver | internal/daemon/daemon.go:85-122 | over whole runs at most one loop ever works on a feed: if one does at some time and one at any later time, they are the same |
| DaemonInvariants.ClaimsStay | internal/daemon/daemon.go:232-246 | a claim once made keeps its URL and its claimant in every later state |
| DaemonInvariants.StreamingAndPollingAreReady | internal/daemon/daemon.go:126-156 | whenever a loop streams or polls, its endpoints normalise to a non-empty list and its feed id is claimed by its own URL, so the late claims and the "no endpoints" errors are never reached |
| DaemonTerminal.SilentExactlyAfterTerminalPass | internal/daemon/daemon.go:177-181 | a loop falls silent if and only if it closes a stream pass whose flags are all terminal, or polls and every normalised endpoint ended terminally: by a protocol error not to be retried, or by a document that refuses to open |
| DaemonTerminal.StreamEndsTerminallyExactly | internal/daemon/daemon.go:135-146 | one endpoint's stream ends terminally if and only if the endpoint said so or an event's document refuses to open |
| DaemonTerminal.SilentStreamHadTerminalPass | internal/client/feed/endpoints.go:103-138 | over all runs: a streaming loop that falls silent is at the end of one pass, over the normalised endpoints it had when the stream was opened, in which each of them ended terminally |
| DaemonTerminal.StreamPassDecides | internal/client/feed/endpoints.go:128-136 | given how each endpoint of the pass ended, the failover's verdict is terminal exactly when all flags are set |
| DaemonTerminal.PollEnds | internal/daemon/daemon.go:290-341 | a poll over a usable list goes on silent exactly when every endpoint ended terminally, polling exactly when some endpoint answered, and offline otherwise |
| DaemonTerminal.BootstrapStopsExactly | internal/daemon/daemon.go:101-114 | bootstrapping stops the loop exactly on a terminal error of the setup URL, a document that refuses to open included |
| DaemonTerminal.UnreadableCacheIsIgnoredOffline | internal/daemon/daemon.go:447-450 | while offline the loop goes on whatever the cache holds, and an unreadable one changes nothing |
| DaemonScenarios.FirstSync | internal/daemon/daemon.go:72-138 | from nothing known, five steps after its start a loop streams from its document's endpoints in document order, the feed is claimed under its URL, and the state file maps the URL and records exactly the document's tunnels and revision |
| DaemonScenarios.RestartStreams | internal/daemon/daemon.go:81-138 | with a cached document, three steps after its start and without any request a loop streams from the cached endpoints in stored preference order, and nothing but a missing salt changed in the file |
| DaemonScenarios.ProbeDecides | internal/daemon/daemon.go:168-175 | probing leads back to streaming if and only if the first endpoint, in the order given, whose answer can be read says that it can stream; otherwise to polling |
| DaemonScenarios.PollsLastSuccessFirst | internal/daemon/daemon.go:281-290 | the endpoint that a polled update came from is the first that the next poll asks, whether or not the tunnels could be applied |
| DaemonScenarios.UnreadableEvent | internal/daemon/daemon.go:138-146 | an event that cannot be read is passed over, unless its document refuses to open; then it ends that endpoint's stream terminally |
| DaemonScenarios.BootstrapFails | internal/daemon/daemon.go:101-113 | bootstrapping in vain leads offline, unless the error asks not to retry |
| DaemonScenarios.OfflineEnds | internal/daemon/daemon.go:183-188 | from offline a loop goes back to streaming or polling as before, and meanwhile reconciles its own feed's cache, if at all |
| DaemonScenarios.ExitsExactly | internal/daemon/daemon.go:72-190 | a running loop exits if and only if it is cancelled, its URL cannot be resolved, its claim is refused, bootstrapping ends terminally, or the bootstrapped update cannot be applied |
| DaemonSync.LoopsAreInTouch | internal/daemon/daemon.go:282-334 | in every reachable state a running loop asks for the revision of the last response it received, contacts exactly that response's endpoints, and asks unconditionally before the first one |
| DaemonSync.UpdateIsTheDelivery | internal/daemon/daemon.go:135-154 | an update that is saved is exactly the response delivered in that step, under the setup URL while bootstrapping, the endpoint whose stream is open, or an endpoint of the poll |
| DaemonDeliveries.DecodedExactly | internal/daemon/daemon.go:363-385 | a message is decoded to a response if and only if it has a revision and carries that document, valid in the clear or under a ciphertext that opens to it |
| DaemonDeliveries.BootstrapIsTakenUp | internal/daemon/daemon.go:101-122 | a bootstrap answer that can be read is taken up, under the feed it names if the loop knows none |
| DaemonDeliveries.BootIsApplied | internal/daemon/daemon.go:123-134 | the answer is saved as an update field by field, asked for at the setup URL, and the loop goes on to its endpoints if that worked |
| DaemonDeliveries.EventIsApplied | internal/daemon/daemon.go:138-163 | an event that can be read is saved as an update, asked for at the endpoint whose stream is open; a failing update ends that stream, not terminally |
| DaemonDeliveries.PollIsApplied | internal/daemon/daemon.go:290-341 | a poll saves what the first endpoint in the list that answers sends, asked for there |
| DaemonDeliveries.UnchangedPoll | internal/daemon/daemon.go:290-315 | a poll whose first answer is "unchanged" applies nothing and goes on polling |
| DaemonDeliveries.DeliveryIsApplied | internal/daemon/daemon.go:123-163 | in both directions: a step saves an update exactly when it brings its loop a response and the file can be saved, and it is that response |
| DaemonDeliveries.DeliveriesAreTraced | internal/daemon/daemon.go:248-262 | over every run of the interleaved loops the updates saved are exactly the responses that reached the loops when the file could be saved: each once, in order, none lost and none made up |
| DaemonRuns.StoppedForGood | internal/daemon/daemon.go:290-296 | over every run, a loop that stopped performs no further operation |
| DaemonRuns.FileFollowsTrace | internal/daemon/daemon.go:248-262 | the file of any interleaving is that of its operations, run in the order of their steps |
| DaemonRuns.RunStaysGenuine | internal/daemon/daemon.go:72-190 | over every run of feeds that keep their ids, every loop's feed id is its URL's, the URL mapping stays right, the salt stays, and every operation on a feed was made by the loop that claimed it |
| DaemonRuns.EntryIsTheClaimantsAlone | internal/daemon/daemon.go:248-262 | non-interference for the whole daemon, revisions republished with other documents included: a claimed feed's entry is what the operations of its claimant alone would have made it; an unclaimed feed's entry is untouched |
| DaemonRuns.RecordedTunnelsMatchRevision | internal/daemon/daemon.go:411-427 | the revision-gate invariant, for every feed after every run of the daemon |
| DaemonFresh.FreshRun | internal/client/state/bootstrap_url_map.go:46-64 | a run from a state file without a salt is, from the step that draws one, the same system with the same operations as if that salt had been there from the start, so that all results for runs with a salt hold of it |
| DaemonFresh.FreshEntryIsTheClaimantsAlone | internal/daemon/daemon.go:248-262 | non-interference for the whole daemon from a fresh install |
| DaemonFresh.FreshRunDid | internal/daemon/daemon.go:248-262 | and what the backend saw of it is the same as well |
| DaemonBackend.RunIsCarried | internal/daemon/daemon.go:248-262 | every run of the interleaved loops, with what its steps did at the backend, is a history of operations that leaves the same state file and the same backend, steps whose state could not be loaded or saved included |
| DaemonBackend.FeedIsInstalled | internal/daemon/daemon.go:387-454 | after any run of the daemon, a feed whose last work at the backend succeeded is installed if and only if its own names did not clash |
| DaemonBackend.FeedIsInstalledAsFiled | internal/daemon/daemon.go:387-454 | and under each name it keeps there is that work's configuration with the flag the state file records at the end of the run |
| DaemonBackend.ProfileIsLeftOverExactly | internal/daemon/daemon.go:387-454 | after any run of the daemon, a profile is left over if and only if the last operation that named it abandoned it |
| DaemonBackend.NameIsItsClaimantsAlone | internal/daemon/daemon.go:387-454 | non-interference at the backend for the whole daemon: what is installed under a feed's name is what the operations of the loop that claimed the feed would have installed alone, and nothing changes under the names of unclaimed feeds |
| DaemonForeign.ForeignEventIsFiled | internal/daemon/daemon.go:136-167 | a streaming loop that receives another feed's document writes that feed's entry, maps its setup URL to it, and goes on under its own id |
| DaemonForeign.ForeignPollIsFiled | internal/daemon/daemon.go:316-341 | the same for a poll |
| DaemonForeign.OnlyClaimantsExactlyWithOwnIds | internal/daemon/daemon.go:387-400 | over all runs, every operation on a feed is made by the loop that claimed it, if and only if every response applied and saved carries its loop's own feed id |
| Restart.UpdateIsFiled | internal/daemon/daemon.go:397-414 | whether or not its tunnels could be applied, an update is filed: the mapping, the cache and the promoted endpoint order are in the saved state |
| Restart.RestartResumes | internal/daemon/daemon.go:192-230 | after an update, a restart resolves the setup URL to that feed and to the updated document's endpoints in preference order, if the document came encrypted, and to no endpoints if it did not |
| Restart.LastSuccessIsTriedFirst | internal/daemon/daemon.go:214-222 | and the endpoint that brought the update is the first to be tried |
| Restart.OfflineReconcilesTheUpdate | internal/daemon/daemon.go:439-453 | reconciling from the cache after an update reconciles that update's document |
| OneShot.RunOnce | internal/client/client.go:16-38 | the state saved is that of all requests in turn if none stopped and the file could be loaded and saved, and otherwise the file is not written at all |
| OneShot.ApplyOne | internal/client/client.go:40-119 | one setup URL: known endpoints first, otherwise the URL itself; feeds already seen are ignored; never gated; the state and error are those of `AfterOne` |
| OneShot.SeenStays | internal/client/client.go:90-96 | a feed already seen is not reconciled again; at most its endpoint order changes |
| OneShot.FirstResponseHolds | internal/client/client.go:40-119 | after a run that did not stop, every feed has the revision, time to live, cache and exactly the tunnels of the response first received for it |
| OneShotRequests.SetupURLIsNotAsked | internal/client/client.go:50-71 | once the mapped feed's cache opens to a valid document, what the setup URL would answer makes no difference |
| OneShotRequests.OnlySetupURLIsAsked | internal/client/client.go:76-82 | and without a cached document what any endpoint would answer makes none |
| OneShotRequests.FirstAnswerIsDealt | internal/client/client.go:64-119 | the known endpoints are asked in stored preference order, and the first answer is the one filed, ignored or refused |
| OneShotRequests.NoAnswerStops | internal/client/client.go:66-70 | if none of them answers the run stops, and nothing but a missing salt changes |
| OneShotRequests.DirectAnswerIsDealt | internal/client/client.go:76-119 | without known endpoints the same holds of the setup URL's own answer |
| OneShotRequests.RefusedBeforeAsking | internal/client/client.go:44-61 | a URL without a key and a cached document that does not open stop the run before any request |
| OneShotRequests.AnsweringEndpointIsPreferred | internal/client/client.go:73-76 | with a hash that works, the endpoint that answered heads the stored order afterwards |
| OneShotRequests.StoppedRunStays | internal/client/client.go:28-32 | the run ends with the first request that fails: later ones make no difference |
| EndpointOrder.OrderEndpointsByHashes | internal/client/state/bootstrap_url_map.go:103-153 | the result is the preferred endpoints in preference order and then the others, for any hash that fails or collides |
| EndpointOrder.ReconcileEndpointOrderHashes | internal/client/state/bootstrap_url_map.go:167-224 | the result is the promoted hash, the old preferences still listed and the rest of the document, without blanks and repetitions |
| Recency.OrderKeepsEndpoints | internal/client/state/bootstrap_url_map.go:103-153 | ordering loses no endpoint and invents none, and permutes a duplicate-free list, whatever the hash and the preferences |
| Recency.OrderedAsDedup | internal/client/state/bootstrap_url_map.go:136-152 | preferred endpoints lead in preference order and the rest keep their order |
| Recency.StoredMostRecentFirst | internal/client/state/bootstrap_url_map.go:167-224 | after any run of promotions: promoted hashes by most recent success, then old preferences still listed, then document order |
| Recency.StoredAndPlainAgree | internal/client/state/bootstrap_url_map.go:91-165 | hashing the ordered endpoints gives back the stored order exactly, after any run of promotions |
| Recency.ReconciledAgrees | internal/client/state/bootstrap_url_map.go:157-224 | the same after one reconciliation on top of any stored list, and a promoted member comes first |
| Recency.PromotedIsTriedFirst | internal/client/state/bootstrap_url_map.go:91-224 | the endpoint promoted last is the first of the plain order, whatever the stored list was |
| Recency.MoreRecentIsTriedFirst | internal/client/state/bootstrap_url_map.go:103-224 | one endpoint is tried before another if and only if its latest success is more recent, or neither ever succeeded and it is listed first |
| Recency.SurvivorsKeepTheirOrder | internal/client/state/bootstrap_url_map.go:204-223 | when documents change, surviving preferences keep their relative order and newcomers go last in document order |
| Failover.FetchAnyEndpoints | internal/client/feed/endpoints.go:64-99 | the pass decided is that of `Decides`, requests go out in order and stop at the first success, and the last two fallbacks are never reached |
| Failover.StreamSSEAnyEndpoints | internal/client/feed/endpoints.go:103-138 | the same for streams, where "not supported" ends the pass like a success |
| Failover.NormalizeEndpoints | internal/client/feed/endpoints.go:9-24 | trimmed, non-blank, first occurrences in order |
| Failover.NormalizedIsClean | internal/client/feed/endpoints.go:9-24 | the normalised list has no duplicates and exactly the trimmed non-blank endpoints |
| Failover.NormalizedKeepsOrder | internal/client/feed/endpoints.go:9-24 | and they are in the order of their first occurrences in the list as it was given |
| Failover.DecidedInOrder | internal/client/feed/endpoints.go:64-138 | the decision over the normalised list is the one read off the list as given: the first entry that answers, with every entry before it blank or failed; failing that the last new one that did not fail terminally |
| Failover.OneDecisionInOrder | internal/client/feed/endpoints.go:64-138 | and that reading decides one pass only |
| Failover.OneDecision | internal/client/feed/endpoints.go:64-99 | there is only one pass that the outcomes decide |
| Failover.TerminalExactlyWhenAllAre | internal/client/feed/endpoints.go:88-93 | a pass is terminal if and only if there were endpoints and every one was terminal |
| Sse.BodyReader.ReadOneSSEDataEvent | internal/client/feed/stream.go:65-91 | the reader returns the next event of the stream and leaves the rest to be read |
| Sse.StreamSSE | internal/client/feed/stream.go:47-62 | the handler gets the stream's events in order, each once, up to the first it refuses |
| Sse.Connection.WriteEvent | internal/server/httpapi/handler.go:288-304 | a frame goes out whole, or a prefix of it if a write fails |
| Sse.StreamIsReceived | internal/server/httpapi/handler.go:288-304 | the client receives every one-line payload, whatever pings lie between, stripped at its end |
| Sse.RoundTripExactly | internal/client/feed/stream.go:65-91 | the payloads received are those sent if and only if none is empty or ends in a carriage return; the server's payloads are JSON objects, so theirs always are |
| Sse.CutStreamGivesPrefix | internal/client/feed/stream.go:65-91 | a stream cut anywhere gives a prefix of its events, never a partial one |
| Sse.ThreeLines | internal/client/feed/stream.go:74-89 | an event line, a data line and a blank line deliver the data, stripped at its end, if and only if the type is "feed" once trimmed and there is data left; either way the reader is ready for the next event |
| Sse.OtherLinesIgnored | internal/client/feed/stream.go:83-89 | inserting a line that is neither an event nor a data line, anywhere, changes nothing that is received |
| Sse.LastDataCounts | internal/client/feed/stream.go:87-89 | of several data lines of one event the last one counts |
| Sse.ReturnsIgnored | internal/client/feed/stream.go:73 | a stream whose lines end in a carriage return as well is read the same |
| ETag.IfNoneMatchMatches | internal/server/httpapi/handler.go:238-249 | matches if and only if some part of the list is the same tag once normalised |
| ETag.EscapedInjective | internal/server/httpapi/handler.go:216-224 | quoting never confuses two revisions |
| ETag.MatchWithoutCommas | internal/server/httpapi/handler.go:94-100 | without a comma in the held revision, 304 is answered exactly when it is the stored one |
| ETag.SoundExactlyWithoutCommas | internal/server/httpapi/handler.go:238-249 | 304 means "you hold what is stored", against every stored revision, if and only if the held one has no comma |
| ETag.CommaNeverMatchesItself | internal/server/httpapi/handler.go:243-247 | a revision with a comma is not even recognised by the server that issued it |
| ETag.CommasMatchAnother | internal/server/httpapi/handler.go:243-247 | and it is taken for a revision that stands between two of its commas |
| ETag.NormalizedText | internal/server/httpapi/handler.go:226-236 | a quoted tag is the text between its quotes, a bare one itself |
| ETag.WeakIsSame | internal/server/httpapi/handler.go:226-236 | a weak mark in either case makes no difference |
| ETag.WeakenedIsRecognised | internal/server/httpapi/handler.go:226-249 | a held revision whose tag was weakened on the way is recognised if and only if it is the stored one |
| ETag.ListMatches | internal/server/httpapi/handler.go:238-249 | a list of tags matches if and only if one of them does |
| ETag.PlainIsQuoted | internal/server/httpapi/handler.go:216-224 | a revision of plain characters goes out as it is, in quotes |
| Polling.PollIsExact | internal/client/feed/fetch_conditional.go:37-49 | a poll is answered 304 exactly when the last revision received is the stored one, and either way the client then holds the stored document |
| Polling.PollingIsSound | internal/daemon/daemon.go:290-316 | in every interleaving of puts and polls the client holds the document of its own revision |
| Polling.NextPollBringsNothing | internal/daemon/daemon.go:316-341 | what was polled once is not brought again while it is stored, whatever became of it |
| Polling.CommasKeepStaleDocument | internal/server/httpapi/handler.go:94-100 | a held revision with commas can keep a document that is no longer stored |
| WgQuick.ReadConfig | internal/client/wgquick/parse.go:32-108 | with peers in a growing backing array and a pointer to the current one, the configuration read is that of `Read`; the pointer is set exactly in a peer section and is then always to the last peer of the current array |
| WgQuick.Append | internal/client/wgquick/parse.go:51-52 | appending keeps the elements, in place while there is room and in a new array otherwise |
| WgQuick.OnePeerPerHeader | internal/client/wgquick/parse.go:48-57 | on success there are as many peers as peer headers |
| WgQuick.EarlierPeersStay | internal/client/wgquick/parse.go:48-104 | from a header on, the peers read before stay as they are and matter to nothing that follows |
| WgQuick.NeutralExactly | internal/client/wgquick/parse.go:41-104 | exactly the blank lines, comments, lines without an equals sign, unknown keys and list keys without items never change anything |
| WgQuick.InsertedAnywhere | internal/client/wgquick/parse.go:41-63 | inserting such a line anywhere leaves the result, good or bad, as it was |
| WgSections.SectionBySection | internal/client/wgquick/parse.go:47-104 | what each section says: the last field with a key decides its value, list fields add up, a peer section makes one peer, other sections say nothing, and reading fails if and only if a number in such a section is none |
| WgSections.FieldLine | internal/client/wgquick/parse.go:58-63 | a field's key ends at the first equals sign and its value may have more, both trimmed |
| WgSections.SkippedLine | internal/client/wgquick/parse.go:40-46 | blank lines, comments, and lines without a bracket and an equals sign are no fields |
| WgSections.HeaderLine | internal/client/wgquick/parse.go:47-48 | a line in brackets starts the section named between them, trimmed and in lower case |
| WgSections.CaseIgnored | internal/client/wgquick/parse.go:47-63 | the case of ASCII letters in keys and section names does not matter |
| WgSections.ItemsByCommas | internal/stringsx/csv.go:7-18 | the items of a list are the trimmed parts between its commas, without the blank ones |
| WgSections.AtoiExactly | internal/client/wgquick/parse.go:75-79 | a number is an optional sign and digits within 64 bits, and nothing else |
| WgSections.NextDigit | internal/client/wgquick/parse.go:75-79 | and its digits count from the most significant one on |
| WgSections.NumberReadsBack | internal/client/backend/networkmanager/backend.go:118-120 | every such number is written so that it reads back |
| Keyfile.KeyFile.Set | internal/client/backend/networkmanager/nmconfig/keyfile.go:57-63 | one key changes, its section is created if need be, and blank names change nothing |
| RebuiltValues.WrittenSays | internal/client/backend/networkmanager/nmconfig/keyfile.go:57-63 | one write sets one value, creating its section if need be, leaves every other value, and does nothing if a name is blank |
| Keyfile.KeyFile.Get | internal/client/backend/networkmanager/nmconfig/keyfile.go:45-55 | the value, or nothing if the section or the key is missing |
| Keyfile.KeyFile.RemoveSectionsWithPrefix | internal/client/backend/networkmanager/nmconfig/keyfile.go:65-75 | exactly the sections with the prefix go; a blank prefix removes nothing |
| Keyfile.SplitIPs | internal/client/backend/networkmanager/backend.go:194-207 | each trimmed non-blank address goes to its family, in order |
| Keyfile.BuildNMConnection | internal/client/backend/networkmanager/backend.go:96-164 | an unreadable file is an error; otherwise the sections are those of `Rebuilt` |
| Rebuild.FoundAfter | internal/client/backend/networkmanager/backend.go:111-163 | every value of the rebuilt file is the last one written for it, or the old one outside the peer sections |
| Rebuild.OtherSectionsKept | internal/client/backend/networkmanager/backend.go:111-163 | every section the rebuild does not manage is kept as it was |
| Rebuild.PeerSectionsExactly | internal/client/backend/networkmanager/backend.go:122-141 | the peer sections are exactly those of the peers with a key and an endpoint, a preshared key or an allowed address |
| Rebuild.PeersComeFromConfiguration | internal/client/backend/networkmanager/backend.go:122-141 | nothing in a peer section depends on the file before |
| Rebuild.UuidWritten | internal/client/backend/networkmanager/backend.go:106-113 | a non-blank identifier survives, a missing or blank one is generated |
| Rebuild.AgainExactly | internal/client/backend/networkmanager/backend.go:96-164 | rebuilding with the same configuration changes nothing, if and only if the identifier written is not blank or is generated again; a generated one never is blank |
| RebuiltValues.ConnectionSays | internal/client/backend/networkmanager/backend.go:106-115 | the connection's name, identifier and type, key by key; other keys keep their values |
| RebuiltValues.WireguardSays | internal/client/backend/networkmanager/backend.go:117-121 | the interface's private key, and its MTU or else the old one |
| RebuiltValues.PeerSectionSays | internal/client/backend/networkmanager/backend.go:123-141 | every peer section says what the last peers with its key say, and nothing the file said before |
| RebuiltValues.OnlyPeerSays | internal/client/backend/networkmanager/backend.go:124-141 | a peer whose key no other has says exactly its endpoint, preshared key and allowed addresses |
| RebuiltValues.Ipv4Says | internal/client/backend/networkmanager/backend.go:143-154 | the first IPv4 address and the name servers, key by key |
| RebuiltValues.Ipv6Says | internal/client/backend/networkmanager/backend.go:155-161 | the first IPv6 address, key by key |
| RebuiltValues.StaleExactly | internal/client/backend/networkmanager/backend.go:117-161 | the MTU, addresses and name servers of the rebuilt file come from the configuration alone if and only if it gives them |
| RebuiltValues.NmListSnoc | internal/client/backend/networkmanager/backend.go:209-222 | a list value is every non-blank item, trimmed, with a semicolon after each |

## Left out

- HTTP, etcd, watch channels, timeouts and cancellation: their outcomes are free choices of each step. Nothing is claimed about every server update reaching a stream; one made between reading the entry and starting the watch is missed.
- The daemon's loops are a state machine over atomic steps and not methods with loops, because they run at the same time; the methods they call under the lock are methods here. Waiting and the time to live only decide when a step happens.
- The top-level `Run` returns, and so ends all loops, when any loop exits; the model lets the others go on.
- age, HMAC-SHA-256 and random salts: an opaque decryption, an abstract hash and a salt that is a parameter. An order computed while there is still no salt uses the hash under the empty salt; no polling loop gets there, since resolving draws one first.
- A failing random source, and salts that are not valid hexadecimal, other than as a key that cannot be computed.
- JSON, the ini library's text format and section order, and the default section it always adds.
- Keyfile.KeyFile.Get: leaves out that the ini library looks up a missing key of a dotted section in its parent section; `connection`, the only section read, has none.
- Keyfile.KeyFile.Set: leaves out the same look-up, which matters only if the file has a section `wireguard-peer` of its own.
- URL parsing, UUID and name patterns, and the other checks of `Validate`: a valid document has a non-blank id, distinct non-blank tunnel ids, trimmed non-empty names, and endpoints that are not blank.
- The state file is one cell; that it is written even after an error, and that loading or saving can fail, is kept.
- Backends other than as profiles by name: running `wg-quick`, `nmcli` and the Windows service. Backend and state-file errors are taken not to be protocol errors.
- Accept negotiation, logging and the feed's display data.
- WgQuick.ReadConfig: works on lines, so the scanner's limit on the length of a line is not modelled.
- ETag.EscapedInjective: works on characters, so revisions that are not valid UTF-8 are not modelled; which characters count as printable is a parameter outside ASCII.

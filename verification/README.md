# A model of foxbridge and proofs about it

foxbridge lets CDP clients drive Firefox over Juggler or WebDriver BiDi. This project models the
parts of it whose correctness is not plain from one function body, and proves that they do what
the repository promises. Run `dafny verify dfyconfig.toml`.

| file | what it models |
|---|---|
| `OwnershipProtocol.dfy`, `OwnershipRuns.dfy` | the ownership registry as a protocol: one step for each lock region, an invariant, and theorems over whole runs |
| `Ownership.dfy` | the registry object: maps and shared records edited in place, each method proved to be its protocol step |
| `Authorization.dfy` | the gate every client command passes |
| `SessionTables.dfy`, `Cleanup.dfy`, `Bridge.dfy` | the tables keyed by session, the cleanup of a target, and the object that runs it |
| `CleanupRuns.dfy`, `CleanupMessages.dfy` | the cleanup as its lock regions, interleaved with other cleanups and with handlers for any session; what clients are told by it |
| `Publishing.dfy` | who is told of a page that has come |
| `Views.dfy` | the cleanup seen through the models of Fetch and of `$eval` |
| `Contexts.dfy` | execution-context numbers: allocation, ownership, resolution, destruction |
| `FetchPatterns.dfy`, `FetchState.dfy` | the wildcard compiler with a parser and a matcher for what it emits; the interception flag and decision |
| `EvalMachine.dfy` | the `$eval` interception as one machine for each session, and as its lock regions with cleanups in between |
| `RpcCorrelation.dfy` | calls, read loop and one-slot channels in any interleaving |
| `Deterministic.dfy` | the linear congruential generator and the prelude built on it |
| `TreeFlattening.dfy`, `Accessibility.dfy` | flattening the accessibility tree, and getting it back |
| `Sessions.dfy` | the session manager with its three indexes |
| `Replay.dfy` | recording and replay |
| `Coverage.dfy` | the coverage report |
| `Wire.dfy` | NUL framing and BiDi values |
| `Common.dfy` | shared datatypes and the deletion of owned entries |

A mutable object is a class whose ghost `Model` (or plain value) each method moves by a function of
the old value; that function is what the theorems are about. Records, entries and channels are heap
objects that several keys share; in the values they are numbers. A timer, a backend reply or a
disconnect is a step that may come at any time.

## Where the code falls short of the promise

Each of these is proved, with the exact condition under which the promise does hold, and most with an input that breaks it.

- The attach handler looks up the opener's owner in one lock region and registers in another. If that
  owner disconnects in between, the popup stays open with a dead owner and no one will close it
  (`OpenerRaceLeaksPage`, `RegisterKeepsOwnersLive`).
- A context number is checked in one region and read in another. A number that is not yet stored can
  become another session's in between (`ResolutionSafeIff`). Announced numbers are safe.
- The cleanup compares context IDs with the Juggler session ID, so a shared ID takes another session's
  context (`OthersKeptIff`, `SharedIDTakesContext`); and it clears page sessions only, so that what was
  stored under the tab session stays (`TabSessionKeepsItsEntries`, `CloseLiveSyncIff`).
- A backend event or a goroutine that stores for a closed session after the region that clears the table
  leaves its entry there; a context-created event stores unconditionally (`ForgottenIff`,
  `LateEventIsKept`, `LateEventFromStart`).
- A cleanup reads the owner in one region and begins in another. A claim in between makes a connection the owner of
  a page whose end it is not told (`UntoldOwner`).
- A failing `Fetch.enable` takes out the session's earlier patterns, which can leave the backend
  intercepting for nobody (`FailingStepsSyncIff`); so can a disconnect whose calls fail
  (`FailingDisconnectSyncIff`).
- The interception handler reads the patterns twice. A session that turns Fetch off in between leaves a
  request paused for nobody (`PausedForNobodyIff`).
- The wildcards of a Fetch pattern stop at newlines (`MeaningKeptIff`).
- The skip counter is decremented in another region than it is read in, and stored in another than its
  selector; a cleanup in between leaves it at -1, or at 3 with no selector (`SoundIffNotTorn`,
  `TornDecrement`, `TornStore`).
- `SessionManager.Add` over an existing session leaves its old keys behind (`AddCoherentIff`,
  `OverwriteDangles`).
- A dotted domain name would list a method twice in the coverage report (`RecognisedIff`,
  `DottedDomainListsTwice`).

## Model

| member | source | states |
|---|---|---|
| OwnershipProtocol.InvNext | pkg/bridge/ownership.go:135-494 | every lock region, in any state the callers and the backend can bring about, keeps the invariant: keys name live records under their own IDs, a record that is not closed is found under all its IDs, claims have connected owners and wait for unattached targets, a closing record has a caller that must close it |
| OwnershipProtocol.InvRegister | pkg/bridge/ownership.go:213-278 | a registration keeps the invariant, whether it meets a claim, a cancellation or neither |
| OwnershipProtocol.InvClaim | pkg/bridge/ownership.go:155-182 | a create reply keeps the invariant, whether it comes before or after the attach |
| OwnershipProtocol.InvClose | pkg/bridge/ownership.go:456-494 | a disconnect keeps the invariant |
| OwnershipProtocol.InvRemove | pkg/bridge/ownership.go:433-452 | removing a record keeps the invariant and takes no key that has come to name another record |
| OwnershipProtocol.ClaimEffect | pkg/bridge/ownership.go:155-182 | a claim changes at most the one attached record: to closing if its owner has gone, to owned if it was open and free |
| OwnershipProtocol.OpenOfNamed | pkg/bridge/ownership.go:483-492 | the loop over target keys reaches every open record of a connection, although it looks at keys |
| OwnershipRuns.InvRun | pkg/bridge/ownership.go:135-494 | the invariant holds at the end of every run |
| OwnershipRuns.LaterRun | pkg/bridge/ownership.go:155-494 | over every run a record keeps its IDs, its lifecycle only moves forward, and its owner goes at most from none to one connection to none |
| OwnershipRuns.SessionNeverChangesHands | pkg/bridge/ownership.go:206-211 | a session accepted from one connection is never, in any later state, accepted from another |
| OwnershipRuns.DisconnectedForever | pkg/bridge/ownership.go:393-399 | a connection once closed stays closed |
| OwnershipRuns.DisconnectedIff | pkg/bridge/ownership.go:456-466 | at the end of a run a connection is closed exactly if it was before, or the run has its disconnect |
| OwnershipRuns.KnownIff | pkg/bridge/ownership.go:79-86 | the registry knows exactly the connections that have come with a step of their own, and forgets none |
| OwnershipRuns.BrowserSessionWorks | pkg/bridge/ownership.go:280-307 | a browser session that is registered belongs to its connection in every later state, exactly until that connection disconnects, and to nobody after that |
| OwnershipRuns.EveryIdAnswers | pkg/bridge/ownership.go:184-307 | page ID, tab ID and both session IDs of a record all answer for one connection: its owner, while the record is open and the owner connected |
| OwnershipRuns.OwnerForTargetIff | pkg/bridge/ownership.go:184-192 | a target ID answers for a connection exactly when it is one of the two IDs of an open record that the connection owns, and the connection is there |
| OwnershipRuns.FlagsAreLastSet | pkg/bridge/ownership.go:88-133 | over every run the discover and auto-attach flags of a connection are what it last asked for |
| OwnershipRuns.CreateCallsAreNumbered | pkg/bridge/ownership.go:135-151 | create calls are numbered in the order in which they begin, and each is pending under its number, as its caller's, until it returns or the caller disconnects |
| OwnershipRuns.FinishedIsNotPending | pkg/bridge/ownership.go:147-151 | a create call that has returned is pending no more, and the others still are |
| OwnershipRuns.ClaimWaits | pkg/bridge/ownership.go:155-182 | the claim of a create call waits under the call's number for a target that is not attached, and changes nothing else |
| OwnershipRuns.AttachWrites | pkg/bridge/ownership.go:213-278 | an attach adds one record, open and owned by the claimant or by the owner looked up, or closing and nobody's if the target was cancelled, and uses up the claim or the cancellation of its own target only |
| OwnershipRuns.ClaimOwnersLive | pkg/bridge/ownership.go:155-182 | in every reachable state the owner of each claim is a live connection |
| OwnershipRuns.CloseIsExact | pkg/bridge/ownership.go:456-494 | a disconnect returns exactly the open records of the connection, orphans those and no others, and leaves no claim, pending create or browser session that names it |
| OwnershipRuns.LateAttachIsCancelled | pkg/bridge/ownership.go:213-247 | after a disconnect any later attach of a target it had claimed registers cancelled, unowned, and owed a close by its caller |
| OwnershipRuns.ExpiryOnlyWhileUnmatched | pkg/bridge/ownership.go:325-335 | a timer cancels exactly when the claim of its own generation is still unmatched; once the attach has met it the timer changes nothing |
| OwnershipRuns.CleanupRunsOnce | pkg/bridge/ownership.go:419-431 | however the closers are interleaved with each other and with everything else, the number told to go ahead is one if anyone tried, else none |
| OwnershipRuns.RemovedIsForgotten | pkg/bridge/ownership.go:433-452 | once a record is removed no key names it, then or at any later time |
| OwnershipRuns.NoRecordIsStranded | pkg/bridge/ownership.go:155-247 | in every reachable state a closing record has been handed to a caller that closes it, or its cleanup has begun |
| OwnershipRuns.RegisterKeepsOwnersLive | pkg/bridge/events.go:162 | registering keeps every open record with a live owner exactly when the owner looked up in the earlier region is absent, overruled, or still connected |
| OwnershipRuns.OwnersLiveRun | pkg/bridge/ownership.go:135-494 | in runs where registrations are handed owners that are still good, every open record with an owner has a live one |
| OwnershipRuns.OpenerRaceLeaksPage | pkg/bridge/events.go:162 | the concrete run where that fails: the opener's owner disconnects between the lookup and the registration, and the popup stays open with nobody to close it |
| OwnershipRuns.LookedUpIsReachable | pkg/bridge/events.go:162 | the state that run starts from is reached by client 0 creating a page: begin, claim, an attach with no opener, finish |
| OwnershipRuns.PhaseRun | pkg/bridge/target.go:104-184 | what holds of a page under creation after any mix of steps, told from whether the claim and the attach have happened and whether the timer expired or the target was cancelled |
| OwnershipRuns.PageCreationConfluent | pkg/bridge/target.go:104-184 | every order of claim and attach, with the disconnect, the timer or a cancellation before, between, after or never, ends with one record under page and tab ID: open and owned by the creator, or closing, unowned and owed a close |
| Ownership.OwnershipRegistry.StateLocked | pkg/bridge/ownership.go:79-86 | enters a connection on first sight |
| Ownership.OwnershipRegistry.BeginCreateLocked | pkg/bridge/ownership.go:135-145 | is the protocol step, and returns the new generation |
| Ownership.OwnershipRegistry.FinishCreateLocked | pkg/bridge/ownership.go:147-151 | is the protocol step |
| Ownership.OwnershipRegistry.ClaimTargetLocked | pkg/bridge/ownership.go:155-182 | edits the shared record in place exactly as the protocol step says, and returns it when the attach came first |
| Ownership.OwnershipRegistry.OwnerForTargetLocked | pkg/bridge/ownership.go:184-192 | the owner of an open record with a live owner, else none |
| Ownership.OwnershipRegistry.SessionOwnerLocked | pkg/bridge/ownership.go:290-307 | the owner by target session, or by browser session if there is no target session |
| Ownership.OwnershipRegistry.RecordForTarget | pkg/bridge/ownership.go:194-198 | the record a target key names |
| Ownership.OwnershipRegistry.RecordForSession | pkg/bridge/ownership.go:200-204 | the record a session key names |
| Ownership.OwnershipRegistry.RegisterPair | pkg/bridge/ownership.go:213-247 | one fresh record under two target keys and two session keys; a claim or a cancellation overrules the owner given |
| Ownership.OwnershipRegistry.RegisterWorker | pkg/bridge/ownership.go:249-278 | the same with one key of each kind |
| Ownership.OwnershipRegistry.RegisterBrowserSessionLocked | pkg/bridge/ownership.go:280-288 | is the protocol step, of which BrowserSessionWorks says what it stores |
| Ownership.OwnershipRegistry.ExpireClaimLocked | pkg/bridge/ownership.go:325-335 | is the protocol step, with its answer |
| Ownership.OwnershipRegistry.CancelTargetLocked | pkg/bridge/ownership.go:337-353 | is the protocol step; every key sees the record closing |
| Ownership.OwnershipRegistry.BeginCleanupLocked | pkg/bridge/ownership.go:419-431 | is the protocol step, with its answer |
| Ownership.OwnershipRegistry.RemoveLocked | pkg/bridge/ownership.go:433-452 | is the protocol step |
| Ownership.OwnershipRegistry.DropPending | pkg/bridge/ownership.go:467-471 | the loop drops exactly the pending creates of the connection |
| Ownership.OwnershipRegistry.DropClaims | pkg/bridge/ownership.go:472-477 | the loop turns exactly the claims of the connection into cancelled targets |
| Ownership.OwnershipRegistry.DropBrowserSessions | pkg/bridge/ownership.go:478-482 | the loop drops exactly the browser sessions of the connection |
| Ownership.OwnershipRegistry.CollectOpen | pkg/bridge/ownership.go:483-492 | the loop over keys orphans exactly the open records of the connection and lists each once although two keys lead to it |
| Ownership.OwnershipRegistry.CloseConnectionLocked | pkg/bridge/ownership.go:456-494 | is the protocol step; the list returned is a list, without repetition, of the set the protocol gives |
| Ownership.OwnershipRegistry.SetDiscoverLocked | pkg/bridge/ownership.go:88-95 | is the protocol step |
| Ownership.OwnershipRegistry.SetAutoAttachLocked | pkg/bridge/ownership.go:107-114 | is the protocol step |
| Ownership.OwnershipRegistry.OwnedPairs | pkg/bridge/ownership.go:401-417 | the pairs of exactly the open page records of the connection, each record once |
| Ownership.PairedIff | pkg/bridge/ownership.go:401-417 | in every reachable registry the records listed are all the open page records of the connection |
| Ownership.OwnershipRegistry.SetRequestOwner | pkg/bridge/ownership.go:355-362 | stores the owner of a request unless either ID is empty |
| Ownership.OwnershipRegistry.ClearRequest | pkg/bridge/ownership.go:374-381 | forgets one request |
| Ownership.OwnershipRegistry.ClearRequests | pkg/bridge/ownership.go:383-391 | the loop forgets exactly the requests of one session |
| Ownership.TargetPair.EmitPageAttach | pkg/bridge/events.go:1080-1103 | the guarded region raises the flag it tests, and says whether to emit |
| Ownership.AnnouncedInOrder | pkg/bridge/events.go:1080-1103 | in any order of requests the guarded region lets through exactly the first for a tab, if it comes before any for the root, and the first for the root; the sends come after the unlock and are not ordered by it |
| Authorization.TargetScopedMethod | pkg/bridge/bridge.go:198-205 | the loop finds whether a method belongs to one of the target domains |
| Authorization.TargetScopedIff | pkg/bridge/bridge.go:198-205 | the thirteen domains by name |
| Authorization.Authorize | pkg/bridge/bridge.go:207-224 | the refusals in their order |
| Authorization.AuthorizedIff | pkg/bridge/bridge.go:207-224 | in a reachable registry a command passes exactly when it is not Browser.close and names no session for no target, or the client's own open target, or, for no target, its own browser session |
| Authorization.CommandsStayWithTheirClient | pkg/bridge/bridge.go:207-224 | a session that has carried a command of one client never carries one of another, whatever happens in between |
| Authorization.BrowserSessionCommands | pkg/bridge/bridge.go:207-224 | from its registration until its client disconnects a browser session lets through exactly its client's commands that are for no target, Browser.close excepted |
| SessionTables.ClearedPaired | pkg/bridge/bridge.go:272-310 | the maps that are filled in pairs keep the same keys |
| SessionTables.ClearedHasNothing | pkg/bridge/bridge.go:235-318 | after the cleanup no table holds anything keyed or owned by the page session or the Juggler session |
| SessionTables.OthersKeptIff | pkg/bridge/bridge.go:272-281 | another session keeps all its entries exactly when none of its contexts has the closed Juggler session for its Juggler context ID |
| SessionTables.SharedIDTakesContext | pkg/bridge/bridge.go:277 | an input where such a context is lost |
| SessionTables.TabSessionKeepsItsEntries | pkg/bridge/bridge.go:235-318 | what a client stored under the tab session stays |
| SessionTables.ClearedCommutes | pkg/bridge/bridge.go:227-233 | clearing two targets gives the same tables in either order, so the order of a map iteration does not matter |
| OwnedTables.DropOwned | pkg/bridge/bridge.go:291-310 | the loop deletes exactly the entries of one owner, from both tables |
| Bridge.DropContexts | pkg/bridge/bridge.go:275-281 | the loop deletes exactly the contexts that match by Juggler session or by owner |
| Bridge.Filter | pkg/bridge/bridge.go:352-357 | the in-place filter drops exactly the pair given |
| Bridge.Bridge.ClearRecord | pkg/bridge/bridge.go:235-318 | one turn of the loop is the table step proved about above |
| Bridge.Bridge.DisableFetchIfUnusedNow | pkg/bridge/bridge.go:370-377 | interception goes off exactly when no session has patterns and the backend accepts |
| Bridge.Bridge.EraseTarget | pkg/bridge/bridge.go:332-359 | everything between BeginCleanup and the registry's removal, in its order; CloseRecordTells says what is sent |
| Bridge.Bridge.CloseRecordNow | pkg/bridge/bridge.go:327-361 | does nothing at all unless BeginCleanup says to go ahead, and is then the whole step |
| CleanupProtocol.CloseRecordTells | pkg/bridge/bridge.go:332-345 | a close that goes ahead tells the owner, if there is one, that it is detached from the page's session and then that the target is destroyed, and nobody else anything; the backend is asked to close the page once, if asked for and the page has a session |
| CleanupProtocol.SecondCloseIsIdle | pkg/bridge/bridge.go:328-331 | closing a record again changes nothing and tells nobody anything |
| Bridge.Bridge.CloseAll | pkg/bridge/bridge.go:229-231 | the loop closes the records in the order listed, whatever the backend answers to each call |
| Bridge.Bridge.ConnectionClosedNow | pkg/bridge/bridge.go:227-233 | a disconnect closes exactly the records that the registry hands back, with an answer of its own for each call and for the last one |
| Bridge.Bridge.AnnouncePair | pkg/bridge/events.go:1068-1124 | the flag goes up once; the event goes to the owner of an open record only |
| Bridge.Bridge.PublishOwnedPair | pkg/bridge/bridge.go:389-425 | takes the pair off the queue and tells its owner what it asked to be told |
| Publishing.PublishToIff | pkg/bridge/bridge.go:389-397 | the connection to tell of a page is the owner of the record that has the target for its page or tab and is neither closed nor cancelled |
| Publishing.ToldIff | pkg/bridge/bridge.go:389-425 | after any run a connection is told that a page was created exactly if it holds the page, last asked to hear of targets and has not left, and that it is attached exactly if it last asked for that, has the page open and was not told before; creation first, each at most once |
| CleanupProtocol.AttachTies | pkg/bridge/events.go:132-160 | after the attach handler has added page and tab, their target and Juggler keys in the session index lead to their own entries |
| CleanupProtocol.IndexForgetsIff | pkg/bridge/bridge.go:346-347 | removing page and tab session leaves none of their keys in any of the three indexes exactly when the keys led to entries of these two sessions |
| CleanupProtocol.CloseRecordForgets | pkg/bridge/bridge.go:327-361 | after one uninterrupted close nothing mentions the target in any table, in the three indexes, the queue, the pairs or the registry, exactly when the index held its keys for its own sessions |
| CleanupProtocol.CloseRecordKeepsOthers | pkg/bridge/bridge.go:327-361 | a close leaves the record, the registry keys, all six index keys and the pair of every other target alone, and its tables exactly when no context of it is taken |
| CleanupProtocol.DisconnectForgets | pkg/bridge/bridge.go:227-233 | a disconnect closes every open record of the connection and no other, forgets each in the tables, indexes, queue, pairs and registry, asks the backend once for each page and sends no further notice |
| CleanupRuns.RegionsMakeTheBody | pkg/bridge/bridge.go:235-361 | the twenty regions of the body after its Page.close call, the two messages to the owner among them, are the body, one after the other |
| CleanupRuns.GoneIffNothingHeld | pkg/bridge/bridge.go:235-361 | a target is forgotten exactly when none of the slots that the regions clear holds anything of it |
| CleanupRuns.SysInvNext | pkg/bridge/bridge.go:327-361 | whatever region, handler or registry step comes next, for whichever session, the invariant is kept: tables paired, index coherent, keys tied to their own sessions until they are taken out, each cleanup at its stage |
| CleanupRuns.StageAdvances | pkg/bridge/bridge.go:327-361 | each region of a record's cleanup is entered at most once, in order, and only by the closer told to go ahead |
| CleanupRuns.ProceedClears | pkg/bridge/bridge.go:235-361 | the region that is the last to clear a slot leaves nothing of its target there, whatever was done in between |
| CleanupRuns.HeldIff | pkg/bridge/bridge.go:327-361 | over every run a slot holds something after its region exactly if it has since before, or something was stored late and stayed |
| CleanupRuns.ForgottenIff | pkg/bridge/bridge.go:327-361 | however Page.close, Target.closeTarget, disconnects and detaches are interleaved with each other and with stores and deletes for any session, once the cleanup has finished nothing mentions the target, exactly unless something was stored after the region that clears its place and stayed |
| CleanupRuns.LateEventIsKept | pkg/bridge/events.go:418-420 | the run where that fails, from any state in which a cleanup can begin: a context-created event after the cleanup leaves its context under the closed Juggler session |
| CleanupRuns.LateEventFromStart | pkg/bridge/events.go:411-420 | the same from the very start: attach, close, late event |
| CleanupRuns.RegistryNeverStoredLate | pkg/bridge/ownership.go:433-452 | what the registry has forgotten never comes back |
| CleanupRuns.RegionKeepsOther | pkg/bridge/bridge.go:235-361 | a region of another target's cleanup leaves a target's tables, index keys and pair alone, unless it drops contexts and one of the target's is taken |
| CleanupRuns.OthersKeptRun | pkg/bridge/bridge.go:327-361 | over every run, with any number of other cleanups at any regions, a target keeps what the tables, the index, the pairs and the registry hold for it |
| CleanupMessages.SaidByCleanup | pkg/bridge/bridge.go:328-345 | over every interleaving the regions of a cleanup send exactly the detachment and then the destruction, to the owner that its closer had read, or nothing if it had read none |
| CleanupMessages.DetachedOnce | pkg/bridge/bridge.go:338-341 | over the whole run the page's session is reported detached exactly once if the closer had read an owner, and never if not |
| CleanupMessages.ToldIsOwner | pkg/bridge/bridge.go:328 | the connection told is the only one that ever owned the record |
| CleanupMessages.UntoldOwner | pkg/bridge/bridge.go:328-329 | the run where an owner is told nothing: it claims the page between the read of the owner and BeginCleanup |
| Contexts.InvNext | pkg/bridge/events.go:380-537 | every region keeps the two maps on the same issued numbers, and numbers in flight, stored and announced apart |
| Contexts.NoNumberIsSentTwice | pkg/bridge/events.go:380-476 | in every reachable state the two maps have the same keys, all above 100 and at most the counter, and no context-created event has repeated a number |
| Contexts.AtomicResolutionIsSafe | pkg/bridge/bridge.go:466-471 | checked and read at one time, a number resolves to a mapping of the caller or to none |
| Contexts.ResolutionSafeIff | pkg/bridge/runtime.go:78-90 | with the check and the read as two regions, that holds of every interleaving exactly when the number was settled at the check: stored, dropped, never issued above 100, or in flight for the caller |
| Contexts.UnsettledRun | pkg/bridge/runtime.go:78-90 | the interleaving that gives a caller another session's context, for every unsettled number |
| Contexts.AnnouncedIsSettled | pkg/bridge/events.go:431-445 | a number that an event has announced is settled for every session |
| Contexts.StoreWrites | pkg/bridge/events.go:411-417 | an event's number is stored with its context and its session, and no other number is touched |
| Contexts.IsolatedWrites | pkg/bridge/page.go:366-383 | the number of an isolated world is stored for its session with the context of the session's greatest number, and not at all if the session owns none or that one has no context |
| Contexts.StoredUntilDropped | pkg/bridge/bridge.go:483-492 | a stored number stays, with its context and its session, exactly until a region drops it |
| Contexts.StoredResolves | pkg/bridge/runtime.go:78-90 | from its store until a region drops it a number resolves to its context for its own session, and to nothing for any other or later |
| Contexts.IsolatedResolves | pkg/bridge/page.go:366-383 | so does the number of an isolated world, to the context that was its session's newest when it was made |
| Contexts.EventsAndNumbers | pkg/bridge/bridge.go:458-464 | the numbers allocated are counted without a gap, and the events sent are those of the sends, in order |
| Contexts.ContextTable.NextCtxID | pkg/bridge/bridge.go:458-464 | is the allocating step |
| Contexts.ContextTable.StoreMapping | pkg/bridge/events.go:413-417 | is the storing step: value and owner together |
| Contexts.ContextTable.ClearSession | pkg/bridge/bridge.go:483-492 | is the deleting step, for exactly the contexts the session owns |
| Contexts.ContextTable.NewestOf | pkg/bridge/page.go:371-377 | the newest context a session owns, whatever the order of the scan |
| Contexts.ContextTable.MapIsolatedWorld | pkg/bridge/page.go:370-383 | is the storing step of an isolated world: maps its number to the context of the session's greatest number, or leaves both maps alone |
| Contexts.ContextTable.FindNumber | pkg/bridge/events.go:486-495 | some number of the Juggler context, 0 if it has none |
| Contexts.ContextTable.DropNumber | pkg/bridge/events.go:524-536 | the region after the find, Juggler: the number found goes, others for the same context stay |
| Contexts.ContextTable.DropAllNumbers | pkg/bridge/events.go:497-523 | the region after the find, BiDi: every number the context has by then goes, and is announced once |
| Contexts.AnnouncedAreDropped | pkg/bridge/events.go:497-523 | if the number found is still there, what is announced is each number of the context, once, the number found first |
| Contexts.NumbersKeepTheirMeaning | pkg/bridge/events.go:486-531 | a number keeps its context as long as it is stored, so that what the second region drops is what the first found, or gone |
| FetchPatterns.CdpURLPatternRegexp | pkg/bridge/fetch.go:44-66 | the loop emits the text of the specification |
| FetchPatterns.CompiledReadsBack | pkg/bridge/fetch.go:41-66 | the text always parses, and as nothing but the tokens of the pattern between the anchors: no accidental quantifier, no unquoted metacharacter |
| FetchPatterns.CompiledMeaning | pkg/bridge/fetch.go:41-66 | the expression matches exactly what the pattern does when its wildcards stop at newlines |
| FetchPatterns.CompiledPreservesMeaning | pkg/bridge/fetch.go:41-66 | on newline-free URLs it matches exactly what the pattern says; the rules below tell that character by character |
| FetchPatterns.MeaningKeptIff | pkg/bridge/fetch.go:41-66 | over all texts the meaning is kept exactly by the patterns without wildcards |
| FetchPatterns.QuestionMarkRule | pkg/bridge/fetch.go:51-52 | a question mark takes one character that is not a newline, and the rest of the pattern the rest of the URL |
| FetchPatterns.LiteralRule | pkg/bridge/fetch.go:60-61 | a character that is no wildcard and no backslash takes itself |
| FetchPatterns.EscapeRule | pkg/bridge/fetch.go:53-56 | a backslash makes the next character take itself, whatever it is |
| FetchPatterns.LastBackslashRule | pkg/bridge/fetch.go:57-59 | a backslash at the end takes a backslash |
| FetchPatterns.StarRule | pkg/bridge/fetch.go:49-50 | a star takes any number of characters that are no newlines |
| FetchPatterns.EmptyRule | pkg/bridge/fetch.go:44-66 | the end of the pattern takes the end of the URL |
| FetchPatterns.EffectiveRule | pkg/bridge/fetch.go:28-30 | an empty pattern matches exactly the newline-free URLs, and any other is compiled as it is |
| FetchPatterns.QuotedMatchesItself | pkg/bridge/fetch.go:41-66 | a pattern that quotes every character of a text matches that text alone |
| FetchState.FetchDomain.HandleEnable | pkg/bridge/fetch.go:165-195 | is the step, failing backend call included |
| FetchState.FetchDomain.HandleDisable | pkg/bridge/fetch.go:197-212 | is the step, failing backend call included |
| FetchState.FetchDomain.DisableFetchIfUnused | pkg/bridge/bridge.go:370-377 | is the step |
| FetchState.SucceedingStepsSync | pkg/bridge/fetch.go:165-212 | after every enable, disable, close and disconnect whose last call succeeds, the flag says whether some session has Fetch enabled |
| FetchState.EnableAndDisableRepair | pkg/bridge/fetch.go:165-212 | an enable or a disable that succeeds puts the flag right whatever it was |
| FetchState.FailingStepsSyncIff | pkg/bridge/fetch.go:190-193 | an enable, disable or close whose call fails puts the flag out of step exactly when the handler was taking out the last session |
| FetchState.FailingDisconnectSyncIff | pkg/bridge/bridge.go:227-233 | a disconnect whose last call fails keeps the flag right exactly when no session had patterns, one outside the closed pages has, or an earlier call succeeded with the table already empty |
| FetchState.FlagIsRight | pkg/bridge/fetch.go:68-85 | the flag is right at the end of every run of succeeding calls |
| FetchState.CloseLiveSyncIff | pkg/bridge/bridge.go:255-257 | closing a target keeps the flag true of live sessions exactly when its tab session had no patterns, or another session that lives on has some |
| FetchState.TabEntryIsLeftBehind | pkg/bridge/bridge.go:255-257 | an input where it does not |
| FetchState.ShouldPauseFetchRequest | pkg/bridge/fetch.go:97-128 | the loop answers whether Fetch is off, has no patterns, or has one that matches stage, type and URL |
| FetchState.HandleIntercepted | pkg/bridge/events.go:736-773 | an intercepted request is paused exactly when Fetch is enabled for it with no patterns or one that matches, and else continued exactly once |
| FetchState.EntryAfterRun | pkg/bridge/fetch.go:165-212 | after any run of enables, disables, closes and disconnects a session has the patterns of the last event on it if that was an enable that succeeded, no entry after any other event on it, and what it had if there was none |
| FetchState.GoesBy | pkg/bridge/fetch.go:86-105 | from the start, a session goes by the enable that was the last event on it, else by the one that was the last on the browser session, else by none |
| FetchState.WantedByOne | pkg/bridge/fetch.go:97-128 | an empty list wants every request, any other those that some pattern of it wants alone |
| FetchState.TypeDecides | pkg/bridge/events.go:698-714 | a pattern wants the requests whose URL it matches and whose type is its own: WebSocket by the URL's scheme, else Document for a navigation, else Other |
| FetchState.StageDecides | pkg/bridge/fetch.go:112-119 | no stage is the request stage, letter case does not matter, and a pattern for another stage wants nothing |
| FetchState.FoldIff | pkg/bridge/fetch.go:116-119 | which characters count as one letter |
| FetchState.PausedForNobodyIff | pkg/bridge/events.go:737-745 | with any handlers between the two reads of the table, a request is paused for a session that has Fetch off exactly when the session had it on at the first read and the last event on it in between took its entry out |
| FetchState.DecidesAsOneReadIff | pkg/bridge/events.go:737-745 | the two reads decide as one read at the later time would, exactly unless the last event on the session in between took out an entry it had, or gave one that wants the request to a session that had none |
| FetchState.PlainPatternWantsItsUrl | pkg/bridge/fetch.go:97-128 | a fully quoted pattern pauses the requests for its URL and no others |
| Views.ClearedForgetsQuery | pkg/bridge/bridge.go:245-249 | clearing a target is, on the three maps of the $eval interception, forgetting its page session |
| Views.CloseIsFetchClose | pkg/bridge/bridge.go:327-361 | a close that goes ahead is, on patterns and flag, the Fetch step |
| Views.DisconnectIsFetchDisconnect | pkg/bridge/bridge.go:227-233 | and so is a disconnect |
| Views.DisconnectKeepsFlagRight | pkg/bridge/bridge.go:227-233 | after a disconnect whose last call succeeds the backend intercepts exactly while some session has Fetch enabled |
| EvalMachine.Evaluator.CallFunctionOn | pkg/bridge/runtime.go:189-360 | the branches, on the three maps, are the step of the specification |
| EvalMachine.StrippedMeaning | pkg/bridge/runtime.go:191-198 | stripping leaves the text up to the first source-URL comment of either kind, and a text without one as it is |
| EvalMachine.TextTests | pkg/bridge/runtime.go:213-226 | the texts that tell Puppeteer's own functions, and a query |
| EvalMachine.ContainsIff | pkg/bridge/runtime.go:213-226 | to contain a text is to have it between two others |
| EvalMachine.Evaluator.ForgetSession | pkg/bridge/page.go:169-175 | forgets the session |
| EvalMachine.MapsAreMachines | pkg/bridge/runtime.go:202-327 | the three maps run one small machine for each session, and a command moves no other session's machine |
| EvalMachine.SessionsAreIndependent | pkg/bridge/runtime.go:202-327 | over every sequence of commands of many sessions each sees exactly what its own commands make its machine do |
| EvalMachine.SkipsStayInRange | pkg/bridge/runtime.go:240-256 | while no other region comes between those of one call, each skip counter is in 0..3 in every reachable state, and zero unless a selector is pending; EvalRegions has the interleavings |
| EvalMachine.QueryThenCombined | pkg/bridge/runtime.go:238-327 | a query for all elements answers exactly three ordinary calls with an empty object and is combined with the fourth, a query for one with the first, with any query calls that store no selector in between |
| EvalMachine.WaitingIff | pkg/bridge/runtime.go:202-327 | what a session waits for after any commands, told from the commands themselves |
| EvalMachine.OrdinaryAnswerIff | pkg/bridge/runtime.go:238-270 | whatever came before, an ordinary call is combined with a selector exactly if the latest query that brought one brought that one, only ordinary calls and bare queries have come since, and of ordinary ones three for a query for all and none for any other; answered with an empty object exactly if fewer; and else evaluated as it is |
| EvalMachine.OtherAnswers | pkg/bridge/runtime.go:295-345 | any other call is a query if it brings a selector, and is else evaluated as it is |
| EvalMachine.CombinedAtMostOnce | pkg/bridge/runtime.go:257-262 | combinations never outnumber queries, on any prefix of any run |
| EvalMachine.CombinedWithLatest | pkg/bridge/runtime.go:257-270 | a combination uses the selector and kind of the latest query of its session |
| EvalMachine.AllIsQuery | pkg/bridge/runtime.go:299-307 | text that names the query for all elements passes the test for a query |
| EvalRegions.RegionsMakeTheCall | pkg/bridge/runtime.go:202-327 | with nothing in between, the lock regions of a call make up the step of EvalMachine |
| EvalRegions.InvRun | pkg/bridge/runtime.go:202-327 | over every interleaving of the regions of all sessions and of cleanups, each call and each session is in a state that its place allows |
| EvalRegions.SoundIffNotTorn | pkg/bridge/runtime.go:240-323 | between calls a session's counter is in range, and zero unless a selector is pending, exactly when no cleanup fell between a count and its decrement, or between a selector for all elements and its count, without a later one to mend it |
| EvalRegions.TornDecrement | pkg/bridge/runtime.go:240-248 | a cleanup between the read of the count and its decrement leaves -1 |
| EvalRegions.TornStore | pkg/bridge/runtime.go:310-323 | a cleanup between the store of the selector and that of the count leaves a count of three with no selector |
| RpcProtocol.InvNext | pkg/backend/juggler/client.go:53-141 | every step of callers and read loop keeps the invariant that the one chance to answer a call is in one place |
| RpcProtocol.PutNeverBlocks | pkg/backend/juggler/client.go:124-127 | in every reachable state the read loop's channel send does not block, and no channel has been sent to twice |
| RpcProtocol.ReturnsOwnResponse | pkg/backend/juggler/client.go:77-82 | a call that returns a message returns a response with its own ID |
| RpcProtocol.NoAnswerIsDropped | pkg/backend/juggler/client.go:119-127 | a response to a call that is still waiting is taken, unless an answer is already on its way |
| RpcProtocol.AnswerIsKept | pkg/backend/juggler/client.go:119-127 | an answer on its way stays there until its caller receives it, times out, fails to send or is told the client closed |
| RpcProtocol.CallsArePermanent | pkg/backend/bidi/client.go:1131-1166 | a call is never renumbered or reopened |
| RpcProtocol.ReturnsForAReason | pkg/backend/juggler/client.go:68-88 | a call times out, fails to be sent or ends with the client exactly if the run does so to it |
| RpcProtocol.NumberedInOrder | pkg/backend/juggler/client.go:54 | calls are numbered from 1 on without a gap |
| RpcProtocol.ReturnedWasRead | pkg/backend/juggler/client.go:119-127 | what a call returns was read from the backend |
| RpcProtocol.TableEntriesAreLive | pkg/backend/bidi/client.go:1151-1166 | a call that was answered, failed or timed out leaves nothing in the table; one that ended with the client may |
| RpcProtocol.AnswerComesHome | pkg/backend/bidi/client.go:1169-1196 | left alone, the read loop and the caller bring the first response to a waiting call home |
| RpcClient.Client.TakeNumber | pkg/backend/juggler/client.go:54 | is the step |
| RpcClient.Client.EnterChannel | pkg/backend/juggler/client.go:63-66 | is the step, with a fresh channel |
| RpcClient.Client.WithdrawCall | pkg/backend/juggler/client.go:83-87 | is the step |
| RpcClient.Client.TakeChannel | pkg/backend/juggler/client.go:119-126 | is the step: a response takes its channel out of the table |
| RpcClient.Client.PutMessage | pkg/backend/juggler/client.go:125-127 | is the step: the slot is free |
| RpcClient.Client.ReceiveResponse | pkg/backend/juggler/client.go:77-82 | is the step: the message has the call's ID |
| Congruential.FullPeriod | pkg/bridge/deterministic.go:87-90 | the generator returns to a seed after n steps exactly when 2^32 divides n |
| Congruential.LowBitsPeriod | pkg/bridge/deterministic.go:87-90 | the low k bits return exactly when 2^k divides n |
| Congruential.SameLowBitsIff | pkg/bridge/deterministic.go:87-90 | two outputs agree in the low k bits exactly when 2^k divides their distance |
| Congruential.SumDivides | pkg/bridge/deterministic.go:87-90 | the geometric sum behind the period is a multiple of 2^k exactly when n is |
| DeterministicPrelude.DoublesAreExact | pkg/bridge/deterministic.go:87-90 | for every 32-bit seed the product and the sum stay below 2^53, so the double arithmetic and the shift give the recurrence mod 2^32 |
| DeterministicPrelude.PastTwo53 | pkg/bridge/deterministic.go:87-90 | the rounding of doubles is modelled: the first integer past 2^53 is not one |
| DeterministicPrelude.MaskedIsPlain | pkg/bridge/deterministic.go:120-139 | the masks and the BigInt shift come to low bits, and to upper * 2^32 + lower |
| DeterministicPrelude.FillAppend | pkg/bridge/deterministic.go:120-141 | filling m + n elements is filling m and then n |
| DeterministicPrelude.FillElements | pkg/bridge/deterministic.go:120-141 | which outputs each element is made of: one, or two for a bigint |
| DeterministicPrelude.ElementMeaning | pkg/bridge/deterministic.go:116-141 | what each element of each kind of array reads, in plain numbers: the low bits of its output in the range of its kind, negative ones included, or upper * 2^32 + lower |
| DeterministicPrelude.Recurrence | pkg/bridge/deterministic.go:87-90 | the sequence in plain numbers, and its first outputs |
| DeterministicPrelude.WindowIsPermutation | pkg/bridge/deterministic.go:120-139 | any 256 consecutive values of a byte array are a permutation of 0..255 or -128..127, and any 65536 of a two-byte array of 0..65535 or -32768..32767 |
| DeterministicPrelude.Prelude.NextUint32 | pkg/bridge/deterministic.go:87-90 | is the recurrence |
| DeterministicPrelude.Prelude.NextTick | pkg/bridge/deterministic.go:82-86 | counts up from zero |
| DeterministicPrelude.Prelude.DateNow | pkg/bridge/deterministic.go:96-99 | the base time plus the one shared tick |
| DeterministicPrelude.Prelude.PerformanceNow | pkg/bridge/deterministic.go:101-106 | the same shared tick |
| DeterministicPrelude.Prelude.MathRandom | pkg/bridge/deterministic.go:108-111 | in [0, 1), and exactly seed / 2^32 |
| DeterministicPrelude.Prelude.GetRandomValues | pkg/bridge/deterministic.go:116-141 | the loop over the array is the fill of the specification |
| TreeFlattening.IdsInOrder | pkg/bridge/accessibility.go:57-95 | node i has ID i + 1, in preorder |
| TreeFlattening.FlattenChild | pkg/bridge/accessibility.go:82-88 | the k-th child ID is that of the k-th child, whose subtree stands together in the buffer |
| TreeFlattening.OneParent | pkg/bridge/accessibility.go:82-88 | every ID but the root's occurs in exactly one list of children, once |
| TreeFlattening.FlattenInvertible | pkg/bridge/accessibility.go:57-95 | reading the tree back out of the list gives the tree |
| Accessibility.AtoiItoa | pkg/bridge/accessibility.go:58 | decimal IDs can be read back |
| Accessibility.AXBuffer.AppendAXNode | pkg/bridge/accessibility.go:57-95 | appends exactly the flattened subtree to the shared buffer, and edits its own node in place |
| Accessibility.AXBuffer.AppendChildren | pkg/bridge/accessibility.go:82-88 | the loop over the children |
| Accessibility.AXTreeInvertible | pkg/bridge/accessibility.go:52-95 | what was written can be read back into the adapted tree |
| Accessibility.FieldsComeBack | pkg/bridge/accessibility.go:64-92 | what CDP gets for a node gives back exactly the raw fields that survive, each with its value, the role normalised |
| Accessibility.NormalisedIff | pkg/bridge/accessibility.go:64-92 | the raw node itself comes back exactly when every field survives and the role is a CDP name already |
| Accessibility.OriginalTreeComesBack | pkg/bridge/accessibility.go:52-95 | rebuilding from the answer gives back the original tree, with the role normalised and without the fields that do not survive |
| Accessibility.NormalizedTwice | pkg/bridge/accessibility.go:171-185 | normalising a role twice is normalising it once |
| Accessibility.RoleTable | pkg/bridge/accessibility.go:171-188 | six roles are renamed, however they are spaced and capitalised, and every other role is left as it is |
| Accessibility.FieldKinds | pkg/bridge/accessibility.go:64-155 | the kind CDP names for each value, and which fields become properties |
| Accessibility.ItoaIsPlain | pkg/bridge/accessibility.go:58 | IDs are decimal digits without a leading zero |
| SessionIndex.AddCoherentIff | pkg/cdp/session.go:43-58 | adding keeps the three indexes coherent exactly when the new entry takes no key of another session and drops none of its own |
| SessionIndex.OverwriteDangles | pkg/cdp/session.go:43-58 | adding over a session with a new target leaves the old target key behind |
| SessionIndex.RemoveCoherent | pkg/cdp/session.go:60-69 | removing keeps them coherent |
| SessionIndex.UpdateCoherent | pkg/cdp/session.go:117-140 | so does updating a field that is no key |
| SessionIndex.RunCoherent | pkg/cdp/session.go:43-140 | and any sequence of these |
| SessionIndex.UpdateSeenEverywhere | pkg/cdp/session.go:117-140 | an update is seen through every index of its session, and by no other session |
| SessionIndex.AddedIsFound | pkg/cdp/session.go:43-58 | what is added is found under each of its keys, and other keys lead where they did |
| SessionIndex.RemovedIsGone | pkg/cdp/session.go:60-69 | what is removed is found under none of its keys, and other keys lead where they did |
| SessionIndex.UpdateMeaning | pkg/cdp/session.go:117-140 | what each of the three updates writes, as every index shows it |
| SessionIndex.TabKeepsPageLookup | pkg/bridge/events.go:132-160 | registering a page and then its tab keeps the Juggler lookup on the page |
| Sessions.SessionManager.Add | pkg/cdp/session.go:43-58 | is the step, on a copy of what it is given |
| Sessions.SessionManager.Remove | pkg/cdp/session.go:60-69 | is the step |
| Sessions.SessionManager.Get | pkg/cdp/session.go:71-77 | returns a fresh copy of what the index says |
| Sessions.SessionManager.GetByTarget | pkg/cdp/session.go:79-85 | returns a fresh copy of what the index says |
| Sessions.SessionManager.GetByJugglerSession | pkg/cdp/session.go:87-93 | returns a fresh copy of what the index says |
| Sessions.SessionManager.UpdateURL | pkg/cdp/session.go:117-123 | is the step, on the one shared entry |
| Sessions.SessionManager.SetFrameID | pkg/cdp/session.go:133-140 | is the step, on the one shared entry |
| Sessions.SessionManager.SetFrameIDIfEmpty | pkg/cdp/session.go:125-131 | is the step, on the one shared entry |
| Replay.Recorder.Record | pkg/recording/capture.go:43-57 | numbers entries from 1 and uses a number up even when the write fails |
| Replay.Load | pkg/recording/capture.go:65-85 | all entries in order, or nothing if one does not decode |
| Replay.ReplaySession.FlushOutboundUntilInput | pkg/recording/replay.go:167-188 | writes the outbound frames up to the next other entry; a failed write has moved on past its entry |
| Replay.ReplaySession.AcceptInbound | pkg/recording/replay.go:190-207 | accepts exactly the next recorded inbound frame, with the fault of each other case |
| Replay.ReplaySession.HandleWS | pkg/recording/replay.go:132-160 | at every end, a failed write included, what has passed is a prefix of the recording; where the session ends is that of the specification |
| Replay.EnoughWrites | pkg/recording/replay.go:132-188 | with enough writes to spare the session is the one in which no write fails |
| Replay.ServedMeaning | pkg/recording/replay.go:132-207 | whatever the recording, what a session accepts are the client's frames from the first on, with all outbound frames before the next input written; which fault ends it is told by the entry met |
| Replay.WritesIff | pkg/recording/replay.go:167-188 | with so many writes that succeed a session ends as it would without write failures if it has no more to write, and else at the first write too many |
| Replay.ServedIff | pkg/recording/replay.go:132-207 | for a two-way recording a session is free of faults exactly when the client's frames are a prefix of the recorded inbound ones |
| Replay.FullPlayback | pkg/recording/replay.go:132-207 | a client that sends the recorded inbound frames gets the whole recording and reaches its end |
| Replay.ExpectedOutboundIff | pkg/recording/replay.go:199-201 | a client can meet the "expected outbound" fault exactly when some direction is neither "in" nor "out" |
| Replay.RecordAndReplay | pkg/recording/replay.go:132-207 | recording frames, then replaying them to a client that sends the same inbound ones, gives the same frames |
| Coverage.Analyze | pkg/doctor/doctor.go:113-190 | each domain's lists hold exactly what its names fall into and its extensions, each domain is listed once, counters are the sizes of the lists and add up, and everything is sorted |
| Coverage.ReportUpstream | pkg/doctor/doctor.go:145-165 | the loops over domains and names |
| Coverage.AddExtensions | pkg/doctor/doctor.go:167-175 | the loop over the statuses |
| Coverage.LandsInItsCategory | pkg/doctor/doctor.go:145-165 | a name is counted in the list of its category as often as its domain lists it, and in no other |
| Coverage.RecognisedIff | pkg/doctor/doctor.go:227-245 | an upstream method is kept out of the extensions exactly when its domain has no dot, or its parts are listed under the first part of the domain |
| Coverage.EachMethodOnce | pkg/doctor/doctor.go:145-175 | with dot-free domains and distinct names each upstream method is in exactly one list, once, and is no extension |
| Coverage.ReportMeaning | pkg/doctor/doctor.go:145-175 | what each list of a domain's report holds, told from the tables: stubs by domain or method, else handled methods, else missing ones; the other methods with a status are extensions of the domain before their first dot, or of Unknown |
| Coverage.ListedAreOfTheDomain | pkg/doctor/doctor.go:145-165 | the lists hold names of their domain only |
| Coverage.CountersCount | pkg/doctor/doctor.go:145-175 | each counter is the number of entries in the lists of its kind |
| Ordering.LeqIff | pkg/doctor/doctor.go:179-187 | the order is by the first character that differs, a prefix first |
| Coverage.DottedDomainListsTwice | pkg/doctor/doctor.go:167-175 | a dotted domain lists its method twice |
| Coverage.TotalPermutes | pkg/doctor/doctor.go:177-188 | the counters do not depend on the order of the domains |
| PipeFraming.FrameIff | pkg/backend/juggler/transport.go:42-74 | a frame is received as its payload, and what follows is left alone, exactly when the payload has no NUL |
| PipeFraming.WireRoundTrip | pkg/backend/juggler/transport.go:42-74 | any NUL-free payloads come back, all of them, in order |
| PipeFraming.PipeTransport.Send | pkg/backend/juggler/transport.go:42-55 | the payload joins the end of the queue |
| PipeFraming.PipeTransport.Receive | pkg/backend/juggler/transport.go:58-74 | the first payload of the queue, or nothing at the end of the stream |
| BiDiValues.RemoteRoundTrip | pkg/backend/bidi/client.go:1632-1693 | decoding the serialisation of any finite value gives the tree it stands for |
| BiDiValues.EntriesRoundTrip | pkg/backend/bidi/client.go:1671-1689 | objects with text keys and maps with string keys come back, empty keys and repeated keys included |
| BiDiValues.NumberOrZero | pkg/backend/bidi/client.go:1646-1649 | a number that travels as text comes back as zero |
| BiDiValues.DecodeByName | pkg/backend/bidi/client.go:1641-1692 | the three kinds of list decode alike, and an unknown kind to nothing |
| BiDiValues.DecodeWithoutValue | pkg/backend/bidi/client.go:1641-1692 | what becomes of each kind when the value is missing, and of an object whose value is null |
| BiDiValues.NoPairNoMember | pkg/backend/bidi/client.go:1671-1686 | an entry that is not a pair leaves no member |

## Left out

- Serving, process launch, the command line, pipes and files, the documentation site.
- JSON text: models start from parsed values. Marshalling counts as injective and its output as NUL-free; `messagesEquivalent` is equality of messages.
- Strings are sequences of characters. Go compares bytes, its `.` takes one rune, and text that is not UTF-8 has no counterpart here.
- Go's regexp engine beyond the emitted subset: groups, classes, alternation, repetition counts, flags and lazy quantifiers are read as errors by `FetchPatterns.Parse`.
- `%q` quoting and the expression text that a combined `$eval` call sends; the combination is the selector, its kind and the function text.
- The retry of a combined call after "Failed to find execution context", and what `callFunctionOn` and `evaluate` send to the backend otherwise; in particular that the latest context of the session overrides the number that was resolved.
- Unique context IDs (`ctxUniqueOwners`) take part in the cleanup only.
- `conn == nil` paths, which exist for unit tests, and the `autoAttach.enabled` flag they set.
- Browser contexts: a client connection cannot create them, so one default context is assumed for the interception flag.
- Wall-clock waits (`waitForContext`, `waitForMainFrame`, `navigateNewTarget`), main-frame guessing and frame ID translation.
- The handlers that rename parameters (input, emulation, network, DOM, most of page), `stub.go`, `net/url` and base64 handling.
- Fetch actions other than enable and disable, and interception on the browser session or the unattributed path.
- The flag that installs the prelude once for each session (`applyDeterministicPrelude`), and getRandomValues on something that is not a typed array, or on one of floats.
- `adaptAccessibilityTreeResult` on a result that already has nodes, or has no tree.
- `GetByFrameID`, `All` and `GetBrowserContexts` of the session manager.
- `FormatText` and the embedded method tables of the coverage report; the tables are parameters.
- A nil message in a recording.
- Bridge.Bridge.ClearRecord: the bridge's maps by session are the fields of one record value held in a field, updated map by map, not one object field for each map.
- CleanupRuns.RegionsMakeTheBody: the Page.close call is one step with the BeginCleanup that precedes it, since it touches no table; the look at the patterns and the call that switches interception off are one region.
- CleanupRuns.SysInvNext: a call of `SessionManager.Add` takes a registered target's keys only for its own sessions, which holds as session IDs and tab targets are minted, the backend's session IDs name one live session, and a client's attach adds only for targets that the index lacks.
- CleanupRuns.OthersKeptRun: the handlers of the run work for other targets, and no context region finds a context of the target taken; `OthersKeptIff` has the exact condition for one cleanup.
- EvalRegions.InvRun: commands of one session come one after another, as the server reads one message at a time from a connection.
- Ownership.OwnershipRegistry.StateLocked: the connection's state is a value in the map, where the program keeps a shared record.
- Sessions.SessionManager.Get: aliasing of the returned copy is told by `fresh`; a caller's later writes to its copy are not modelled.
- Accessibility.AXBuffer.AppendAXNode: the properties of a node are a map, since the program lists them in the order of a map iteration; numbers are reals.
- Coverage.Analyze: a domain's report is a value replaced in its place, where the program appends to a shared record; sorting is a function where the program calls the library.
- BiDiValues.RemoteRoundTrip: map keys that are not strings all decode to the empty key, and are not among the values serialised here.
- RpcClient.Client.ReceiveResponse: the caller's `select` is the choice between the protocol's steps; timeouts and the close of the client are steps of `RpcProtocol` only.

# A verified model of the Codex OAuth proxy core

The proxy lets several users share a pool of Codex credentials ("auths"). This project models the
stateful part of its package `internal/codexonly` and proves what the code is meant to keep: sessions
stay on their auth, health survives restarts, failover stays within its budgets, chat streams say what
aggregate answers say, and bodies and usage reports do not depend on how bytes are chunked. Every
method is proved against a specification, and the specification's properties are proved for all inputs
and all runs. `dafny verify dfyconfig.toml` checks everything.

| file | what it models |
|---|---|
| `Common.dfy` | `Option`/`Result`, Go's string order, its `TrimSpace` on strings and on bytes, byte streams in chunks |
| `SessionAffinity.dfy`, `SessionAffinityRun.dfy`, `SessionAffinityStore.dfy` | the session-affinity table: transactions on groups of alias rows, their runs told from the operations alone, and the store's loops that carry them out |
| `Selection.dfy` | choosing the auth of a request, with other requests in between |
| `StopFilter.dfy` | the incremental stop-sequence filter |
| `ChatStream.dfy`, `ChatCompletion.dfy`, `ChatEvents.dfy`, `ChatModes.dfy` | the chat completion state machine, its object, what a run says told from its events alone, and streaming against aggregate mode |
| `SseReader.dfy`, `SseFormat.dfy` | the SSE reader and the second pass over the bytes it read; what a text in that format means (section 9.2.6 of the WHATWG HTML Standard) |
| `AuthHealth.dfy`, `AuthHealthRun.dfy`, `AuthHealthRegistry.dfy` | auth health in memory and in the database; what each operation records and how long it lasts; the object |
| `FailoverLog.dfy`, `Failover.dfy`, `FailoverErrors.dfy` | the call log of one request, the two retry loops that write it, and what its error and its waits follow from |
| `RefreshFlight.dfy`, `RefreshFlightRun.dfy` | the single-flight credential refresh (section 6 of RFC 6749), and what each returned result was caused by |
| `ModelCatalog.dfy`, `ModelCatalogRun.dfy`, `ModelCatalogRuntime.dfy` | fetching model catalogs: one critical section at a time, all runs of them, and the object |
| `ReplayStore.dfy` | reading a request body while keeping it for replay |
| `UnicodeText.dfy`, `UnicodeValidator.dfy` | UTF-8 (section 4 of RFC 3629) and surrogate escapes (section 7 of RFC 8259), on the whole text and chunk by chunk |
| `UsageCapture.dfy`, `UsageTimeseries.dfy` | finding usage reports in responses; grouping and zero-filling usage over time |

How to read it. A transaction, a critical section or a call is one atomic step; times are integers in
nanoseconds since Go's zero time, so that `IsZero()` is `== 0`; what the code cannot control (answers of
upstream, failing writes, other requests, the clock) is chosen freely. Concurrent code is a step relation
over a `State` datatype whose runs are sequences; the classes beside it have the source's fields, and
each method is proved to do one of the steps.

Where the code is weaker than one would say at first, the exact statement is proved instead:

- The stop filter equals truncation of the whole text for every chunking if and only if no stop sequence
  interrupts another (`ChunkingIsInvisibleIff`); sequences of one length never do, others can.
- The auth that a selection returns is eligible if and only if nobody moved the session to an ineligible
  auth before the second rebind (`RebindEligibleIff`, `SelectCandidate`); `InterferenceReachesIneligible`
  reaches the other case from the empty table. Failover counts such candidates as strays.
- Streaming and aggregate mode agree on runs that place items alike (`ModesAgree`, `ClientsAgree`). They
  hand out the same slots if and only if their tool tables have the same slot on record for every item
  that names none (`SameSlotsIff`); `ImplicitSlotsDiffer` is a run, without slots, that both accept and
  whose aggregate text is the streamed text twice.
- An SSE event's empty data lines in front of the first other one leave no trace, although the standard
  joins them like any other (`DataIsJoined`).
- A reason cut to 128 characters ends in a space, which the row trims again, exactly when its 128th
  character is one (`RowRepeatsReasonIff`, `CutCanLeaveSpace`).
- A caller that joins a refresh is never handed the token it reported if the leader reported the same one
  or was forced (`SuccessMeansNewToken`); otherwise it can be (`JoinerMayGetStoredToken`).
- A request can end with "all available Codex auths are rate limited" while an auth was free and never
  tried (`RateLimitedDespiteFreeAuth`); `RateLimitedDespiteFreeIff` says exactly when.
- A fetch that began before an auth was removed reports for the auth once it is added again, and runs
  beside the new one (`ReaddedAuthGetsOldFetch`). The bounds on fetches hold for runs whose removals hit
  nothing under way in a cached entry, and only those removals are harmless (`RemovalKeepsInvIff`,
  `BusyRemovalDoublesFetch`).

## Model

| member | source | states |
|---|---|---|
| `SessionAffinity.LoadIsClosed` | internal/codexonly/session_affinity.go:1233-1266 | a load with its second query takes each live group whole or leaves it alone, and a live row it takes brings its binding row along |
| `SessionAffinity.WinnerExists` | internal/codexonly/session_affinity.go:1334-1348 | a load with a live row has a winner, whatever order rows come back in |
| `SessionAffinity.WinnerIsUnique` | internal/codexonly/session_affinity.go:1334-1348 | the oldest live row, ties broken by digest, is unique |
| `SessionAffinity.NoWinnerMeansNoneLive` | internal/codexonly/session_affinity.go:1334-1348 | there is no winner exactly when every loaded row has expired |
| `SessionAffinity.WriteKeepsGroups` | internal/codexonly/session_affinity.go:1376-1414 | writing one row to a closed set of digests leaves every live group whole |
| `SessionAffinity.TransactionKeepsInv` | internal/codexonly/session_affinity.go:833-941 | a transaction that writes the winner's row, or a fresh one when nothing is live, keeps the table invariant |
| `SessionAffinity.ApplyKeepsInv` | internal/codexonly/session_affinity.go:833-1227 | bind, rebind, refresh, every delete, batched cleanup and the passing of time keep the invariant |
| `SessionAffinity.RunKeepsInv` | internal/codexonly/session_affinity.go:833-1266 | over every run, each live row's binding names a live row of its group and every row expires one hour after its update |
| `SessionAffinity.GroupMembersAgree` | internal/codexonly/session_affinity.go:1376-1414 | live rows of one group agree on auth, tenant, creation, update and expiry, and their binding row is live |
| `SessionAffinity.UndisturbedKeepsSession` | internal/codexonly/session_affinity.go:833-1166 | an operation that does not touch, merge or delete a session leaves its auth, creation and tenant and never shortens its life |
| `SessionAffinity.OwnLoadWins` | internal/codexonly/session_affinity.go:1233-1348 | loading some of a session's own digests picks a winner from that session |
| `SessionAffinity.OwnLookupRenews` | internal/codexonly/session_affinity.go:781-818 | a lookup leaves the whole session at least thirty minutes to live |
| `SessionAffinity.LookupsKeepSession` | internal/codexonly/session_affinity.go:1187-1227 | a session looked up with gaps of at most thirty minutes keeps its auth over a run of any length |
| `SessionAffinity.StaleRebindReturnsCurrent` | internal/codexonly/session_affinity.go:887-941 | a rebind from a binding whose auth was already replaced returns the replacement and disturbs nothing |
| `SessionAffinity.StaleRebindsKeepSession` | internal/codexonly/session_affinity.go:887-941 | a run of such rebinds keeps the session's auth and its deadline |
| `SessionAffinity.FirstRebindOpensSession` | internal/codexonly/session_affinity.go:887-941 | the first rebind away from an auth binds the session to one other auth, its own candidate if it really was first |
| `SessionAffinity.StaleRebindsAgree` | internal/codexonly/session_affinity.go:887-941 | every later rebind from the same stale binding returns what the first one returned, whatever its candidate, until the binding expires |
| `SessionAffinityRun.CreatedIsFirstBind` | internal/codexonly/session_affinity.go:833-941 | over every run, each live row's creation time is the first bind of its session, told from the sequence of operations alone: renewals and rebinds leave it, a merge takes the earliest |
| `SessionAffinityRun.BirthsAreBindTimes` | internal/codexonly/session_affinity.go:833-885 | that time is one at which a bind or rebind found nothing live, or was in the table at the start |
| `SessionAffinityRun.FirstBindDecides` | internal/codexonly/session_affinity.go:833-1227 | over every run, a lookup, refresh, bind or rebind that loads several live sessions leaves all requested digests in one session on the auth of the one bound first; a rebind from that auth moves it to the candidate |
| `SessionAffinityRun.OpenedSessionIsNew` | internal/codexonly/session_affinity.go:861-941 | a bind or rebind that finds nothing live opens a session on its candidate: created now, one expiry to live, under its tenant |
| `SessionAffinityRun.OwnRebindMovesSession` | internal/codexonly/session_affinity.go:887-941 | a rebind from a session's auth moves all of it to the candidate, renews it, and leaves its creation and tenant |
| `SessionAffinityRun.FreshLookupWritesNothing` | internal/codexonly/session_affinity.go:781-818 | a lookup of a complete session of that tenant, renewed within the threshold, leaves the table as it was |
| `SessionAffinityRun.LookupNamesTenant` | internal/codexonly/session_affinity.go:1350-1374 | a lookup names the tenant in a session that has none, in all of its rows |
| `SessionAffinityRun.OtherGroupsAreLeftAlone` | internal/codexonly/session_affinity.go:1233-1266 | a transaction leaves every row alone whose digest and binding it does not name and whose group holds no digest that it names |
| `SessionAffinityRun.AuthDeletesTakeSessions` | internal/codexonly/session_affinity.go:943-992 | deleting by auths takes a session whole if its auth is listed and leaves it as it was otherwise; deleting all other auths does the opposite |
| `SessionAffinityRun.TenantDeletesTakeSessions` | internal/codexonly/session_affinity.go:1037-1084 | deleting by tenant takes exactly the sessions of that tenant, and deleting a tenant's session exactly those of its sessions that one of the digests is in |
| `SessionAffinityRun.CleanupTakesNoSession` | internal/codexonly/session_affinity.go:1138-1166 | no batch of a cleanup takes a row of a live session |
| `SessionAffinityStore.Normalize` | internal/codexonly/session_affinity.go:1416-1429 | computes the trimmed, well-formed, distinct digests in order |
| `SessionAffinityStore.NormalizedIsIdempotent` | internal/codexonly/session_affinity.go:1416-1429 | normalizing twice changes nothing, order included |
| `SessionAffinityStore.DigestsNormalize` | internal/codexonly/session_affinity.go:1416-1429 | well-formed digests all survive normalization |
| `SessionAffinityStore.ChooseWinner` | internal/codexonly/session_affinity.go:1334-1348 | the loop finds the winner whatever order the rows are listed in |
| `SessionAffinityStore.RowDigests` | internal/codexonly/session_affinity.go:1440-1446 | collects the digests of the loaded rows |
| `SessionAffinityStore.NeedsWriteCheck` | internal/codexonly/session_affinity.go:1350-1374 | true exactly when some covered digest is missing or differs from the winner's row |
| `SessionAffinityStore.MergeRows` | internal/codexonly/session_affinity.go:1233-1266 | joining the two queries by digest lists exactly the rows that a load returns |
| `SessionAffinityStore.GroupsLoaded` | internal/codexonly/session_affinity.go:1233-1266 | the bindings queried second are the requested ones and those of the rows found first |
| `SessionAffinityStore.CanonicalIsLeast` | internal/codexonly/session_affinity.go:1431-1438 | the canonical digest is the least one |
| `SessionAffinityStore.BindingIsCovered` | internal/codexonly/session_affinity.go:1376-1414 | the binding that a transaction writes is among the aliases it writes |
| `SessionAffinityStore.BindWrites` | internal/codexonly/session_affinity.go:833-885 | the row that the code builds for a bind is the specified one |
| `SessionAffinityStore.RebindWrites` | internal/codexonly/session_affinity.go:887-941 | the row that the code builds for a rebind is the specified one |
| `SessionAffinityStore.RefreshWrites` | internal/codexonly/session_affinity.go:1187-1227 | the row that the code builds for a refresh is the specified one, and there is none exactly when nothing is live |
| `SessionAffinityStore.AffinityStore.LoadRows` | internal/codexonly/session_affinity.go:1233-1266 | lists exactly the rows of the requested digests and of all their groups |
| `SessionAffinityStore.AffinityStore.WriteAliases` | internal/codexonly/session_affinity.go:1376-1414 | writes the row under every covered digest and touches nothing else |
| `SessionAffinityStore.AffinityStore.Bind` | internal/codexonly/session_affinity.go:833-885 | does the bind of the specification or, if it cannot commit, nothing; describes the whole group |
| `SessionAffinityStore.AffinityStore.Rebind` | internal/codexonly/session_affinity.go:887-941 | does the rebind of the specification or nothing |
| `SessionAffinityStore.AffinityStore.Refresh` | internal/codexonly/session_affinity.go:1187-1227 | does the refresh of the specification, writing only when an alias is missing or stale |
| `SessionAffinityStore.AffinityStore.Lookup` | internal/codexonly/session_affinity.go:781-818 | answers with the winner of the read when nothing needs writing, and otherwise with what its refresh makes of the table as any other transactions left it meanwhile; the binding covers all requested digests |
| `SessionAffinityStore.UnwrittenIsOneGroup` | internal/codexonly/session_affinity.go:1350-1374 | when a lookup has nothing to write, all rows it loaded are in one group, on the winner's auth |
| `SessionAffinityStore.AffinityStore.OtherTransactions` | internal/codexonly/session_affinity.go:820-1166 | any sequence of other requests' transactions, at any times, keeps the table invariant |
| `SessionAffinityStore.AffinityStore.DeleteByAuths` | internal/codexonly/session_affinity.go:943-968 | deletes exactly the rows of the given auths |
| `SessionAffinityStore.AffinityStore.DeleteExceptAuths` | internal/codexonly/session_affinity.go:970-992 | deletes exactly the rows of all other auths |
| `SessionAffinityStore.AffinityStore.DeleteByTenant` | internal/codexonly/session_affinity.go:1037-1047 | deletes exactly the rows of a tenant scope |
| `SessionAffinityStore.AffinityStore.DeleteByTenantSession` | internal/codexonly/session_affinity.go:1049-1084 | deletes the whole groups of a session within its tenant |
| `SessionAffinityStore.AffinityStore.Cleanup` | internal/codexonly/session_affinity.go:1138-1166 | deletes expired rows only, oldest first, at most a batch, and reports how many |
| `SessionAffinityStore.CleanupIsKeep` | internal/codexonly/session_affinity.go:1138-1166 | deleting any batch of expired rows is a step of the model and keeps the invariant |
| `Selection.EligibleMeans` | internal/codexonly/server.go:757-800 | an auth is eligible exactly when it is active, allowed, untried and not blocked |
| `Selection.ListEligible` | internal/codexonly/server.go:757-800 | the filter loop computes the eligible auths in order |
| `Selection.RebindEligibleIff` | internal/codexonly/server.go:836-864 | the auth of a rebind is eligible if and only if the session was unbound, unmoved, or moved to an eligible auth |
| `Selection.QuietRebindStaysEligible` | internal/codexonly/server.go:836-864 | nobody touched the table since the binding was read: the second rebind ends on an eligible auth |
| `Selection.InterferenceReachesIneligible` | internal/codexonly/server.go:822-861 | from the empty table: a session that other requests move before both rebinds leaves a selection with an auth it may not use |
| `Selection.LookupFindsAuth` | internal/codexonly/session_affinity.go:781-818 | looking up a bound session finds the auth it is on |
| `Selection.LaterLookupFindsAuth` | internal/codexonly/session_affinity.go:781-818 | a refresh after the read finds the same auth as long as the row that was read is live |
| `Selection.FoundIsUnmoved` | internal/codexonly/session_affinity.go:781-818 | the binding that a lookup answers with is unmoved for as long as nobody touches the table |
| `Selection.StaysUnbound` | internal/codexonly/server.go:808-822 | a session without a live row stays without one until somebody binds it |
| `Selection.Selector.SelectCandidate` | internal/codexonly/server.go:757-865 | fails only without eligible auths (exactly then), in the database, or with a session that others moved to an inactive auth (exactly then); without interference it returns an eligible auth; keeps the auth of an eligible carried binding or of the session it finds, and else moves the session to the round-robin candidate; the session's digests are bound to what it returns |
| `Selection.Selector.SelectSession` | internal/codexonly/server.go:803-865 | the same for the part after the eligible auths are known and the request names a session |
| `Selection.Selector.MoveSession` | internal/codexonly/server.go:822-865 | binds or moves the session; an unmoved one goes to the candidate; fails only in the database or under interference |
| `Selection.Selector.FirstAttempt` | internal/codexonly/server.go:822-834 | the first bind or rebind succeeds if it commits, and takes an undisturbed session to the candidate |
| `Selection.Selector.FindBinding` | internal/codexonly/server.go:808-817 | uses the carried binding, or finds the auth of the session's oldest live row; fails only in the database |
| `Selection.Selector.Retry` | internal/codexonly/server.go:840-861 | the second attempt succeeds if it commits unless the session is on an inactive auth, and ends eligible exactly under the stated condition |
| `Selection.Selector.NextAuth` | internal/codexonly/server.go:80-89 | round robin over the eligible auths |
| `StopFilter.Truncate` | internal/codexonly/chat_completions.go:1289-1304 | cuts a text at its first stop sequence and says whether there was one |
| `StopFilter.FirstStopIsUnique` | internal/codexonly/chat_completions.go:1289-1304 | the place where a text is cut does not depend on the order of the stop list |
| `StopFilter.ChatStopFilter.PushDelta` | internal/codexonly/chat_completions.go:1323-1348 | emits what the specification's push emits |
| `StopFilter.ChatStopFilter.Flush` | internal/codexonly/chat_completions.go:1350-1357 | emits the withheld text unless a stop was seen |
| `StopFilter.PushTracks` | internal/codexonly/chat_completions.go:1323-1348 | one push keeps output plus withheld text equal to the received text until a stop completes, and then cuts it |
| `StopFilter.PushesTrack` | internal/codexonly/chat_completions.go:1289-1348 | the same for every stop list and every chunking |
| `StopFilter.OutputIsReceivedCut` | internal/codexonly/chat_completions.go:1289-1357 | pushes and flush together emit the received text cut at its first stop |
| `StopFilter.OutputHasNoStop` | internal/codexonly/chat_completions.go:1323-1357 | no stop sequence ever reaches the client |
| `StopFilter.ChunkingIsInvisibleIff` | internal/codexonly/chat_completions.go:1289-1357 | streaming equals truncating the whole text for every chunking if and only if no stop interrupts another |
| `StopFilter.EqualLengthsSuffice` | internal/codexonly/chat_completions.go:1306-1357 | stop sequences of one length never interrupt each other |
| `StopFilter.UnequalLengthsCanShow` | internal/codexonly/chat_completions.go:1323-1348 | with stops "abc" and "b", chunks "ab" and "c" show "a" where the whole text shows nothing |
| `ChatStream.ApplySends` | internal/codexonly/chat_completions.go:738-836 | every accepted event sends exactly the change of content and tool calls, as extensions of what was sent |
| `ChatStream.StreamedIsStored` | internal/codexonly/chat_completions.go:738-942 | over every accepted streaming run, content deltas add up to the content, and tool deltas open each index once, in order, and add up to its arguments |
| `ChatStream.ResolvedIs` | internal/codexonly/chat_completions.go:949-986 | the resolved output is the same whatever bound the merge of snapshot and stored items is walked to |
| `ChatStream.SettledToolsMatch` | internal/codexonly/chat_completions.go:877-942 | the calls that the snapshot items are reconciled with are the settled ones, and each has the call ID, name, slot and arguments of one of its own items |
| `ChatStream.SnapshotSettlesAll` | internal/codexonly/chat_completions.go:877-942 | the size check passes if and only if the snapshot's tool items map onto all calls, each of which is one of its items' |
| `ChatStream.AcceptedTerminalMatchesSnapshot` | internal/codexonly/chat_completions.go:854-942 | after an accepted terminal event the content is the snapshot's text in order, and its tool items map onto the streamed calls: none is missing, none has another's identity or arguments |
| `ChatStream.ReconcileTextSends` | internal/codexonly/chat_completions.go:1137-1150 | a text snapshot is accepted only as an extension of the content, and its rest is sent |
| `ChatStream.ReconcileArgumentsSends` | internal/codexonly/chat_completions.go:1166-1179 | an argument snapshot is accepted only as an extension, and its rest is sent |
| `ChatStream.ReconcileToolSends` | internal/codexonly/chat_completions.go:1152-1164 | a tool snapshot opens the call if needed, then extends it |
| `ChatStream.ReconcileToolsSends` | internal/codexonly/chat_completions.go:877-942 | reconciling all tools of a terminal snapshot keeps the client in step |
| `ChatStream.EnsuredIsFound` | internal/codexonly/chat_completions.go:1021-1122 | a tool that was ensured is found again by the same identifiers |
| `ChatStream.SettledIsEnsured` | internal/codexonly/chat_completions.go:904-916 | an accepted tool item settles on the very call it was reconciled with and changes no other |
| `ChatEvents.ContentIsSpoken` | internal/codexonly/chat_completions.go:738-836 | up to its terminal event an accepted run has stored the text that its events say: deltas appended, snapshots in place of what was said before, and in a stream finished messages too |
| `ChatEvents.OnlyDeltasSpeak` | internal/codexonly/chat_completions.go:754-760 | if text comes in deltas only, that text is all deltas in order |
| `ChatEvents.DeltasAreSent` | internal/codexonly/chat_completions.go:754-760 | in an accepted run update i carries exactly the text of event i, if event i is a delta, and no text for events that repeat none |
| `ChatEvents.DeltaExtendsItsCall` | internal/codexonly/chat_completions.go:802-812 | an argument delta is appended to the call that its target names and to no other, and is sent on as it is |
| `ChatEvents.DeltasAddUp` | internal/codexonly/chat_completions.go:754-812 | after any run of deltas the content has grown by all text deltas in order and every call by the argument deltas that name it |
| `ChatEvents.EnsuredIsNamed` | internal/codexonly/chat_completions.go:1100-1122 | a call that was just opened or extended is the one that targets with its item ID, else its call ID, else its slot, else nothing name |
| `ChatEvents.UnknownItemOpensCall` | internal/codexonly/chat_completions.go:1021-1058 | an item that no table knows opens a call at the end of the list, under its call ID, else its item ID, else a made-up one |
| `ChatEvents.AddedCallIsNamed` | internal/codexonly/chat_completions.go:770-790 | an added call is told to the client with its index, ID and name, in that order and without arguments, and its names name it from then on |
| `ChatEvents.ItemIdComesFirst` | internal/codexonly/chat_completions.go:1060-1079 | an item on record under its item ID is that call, whatever its call ID and slot are on record for |
| `ChatEvents.OneCallPerSlot` | internal/codexonly/chat_completions.go:1021-1079 | two items in one slot are one call, unless the second is on record as another |
| `ChatEvents.FirstKnownIdCounts` | internal/codexonly/chat_completions.go:1100-1122 | of the item IDs that an event names, the first one on record counts |
| `ChatEvents.FallbackIdsDiffer` | internal/codexonly/chat_completions.go:1021-1058 | made-up call IDs are told apart by their number |
| `ChatEvents.RefusalHasCause` | internal/codexonly/chat_completions.go:738-836 | an event is refused as malformed, as data after the end, as an upstream failure or as conflicting output for the causes listed, and no others |
| `ChatEvents.AcceptedRunsAreClean` | internal/codexonly/chat_completions.go:738-836 | an accepted run holds no broken event and nothing after its terminal one |
| `ChatEvents.TextDoneIsAcceptedIff` | internal/codexonly/chat_completions.go:1137-1150 | in a stream a text snapshot is accepted if and only if it goes on with what was said |
| `ChatEvents.RepeatedSnapshotIsSilent` | internal/codexonly/chat_completions.go:1137-1179 | a snapshot that says nothing new changes and sends nothing |
| `ChatEvents.MessageTextConcat` | internal/codexonly/chat_completions.go:877-902 | the text of a snapshot is the text of its messages, in order |
| `ChatEvents.MessageTextFirst` | internal/codexonly/chat_completions.go:877-902 | other items between the messages add nothing |
| `ChatEvents.ReasonIs` | internal/codexonly/chat_completions.go:854-875 | a run ends with "content_filter" or "length" if it is incomplete, else with "tool_calls" exactly when it has calls, else with "stop" |
| `ChatEvents.EmptySnapshotKeepsAll` | internal/codexonly/chat_completions.go:877-902 | a terminal event whose snapshot has neither text nor calls ends the run as it stands, in both modes |
| `ChatEvents.AggregateSettlesAll` | internal/codexonly/chat_completions.go:877-902 | the calls that aggregate mode rebuilds are exactly those of the snapshot's tool items, with their IDs, names, slots and arguments |
| `ChatEvents.AggregateMatchesSnapshot` | internal/codexonly/chat_completions.go:854-902 | aggregate mode accepts every terminal event that it can decode, and answers with the text and the calls of its snapshot |
| `ChatCompletion.ChatCompletionState.ApplyResponsesEvent` | internal/codexonly/chat_completions.go:738-836 | does to the object's fields what the specification's step does, in both modes |
| `ChatCompletion.ChatCompletionState.ApplyTerminalResponse` | internal/codexonly/chat_completions.go:854-875 | does the terminal step of the specification |
| `ChatCompletion.ChatCompletionState.ReconcileTerminalOutput` | internal/codexonly/chat_completions.go:877-942 | reconciles text, then tools, against the resolved snapshot |
| `ChatCompletion.ChatCompletionState.ResolvedResponseOutput` | internal/codexonly/chat_completions.go:949-986 | merges the terminal output with the stored items |
| `ChatCompletion.ChatCompletionState.EnsureToolCall` | internal/codexonly/chat_completions.go:1021-1058 | finds or opens the tool call and names it |
| `ChatCompletion.ChatCompletionState.LookupToolCallIndex` | internal/codexonly/chat_completions.go:1060-1079 | looks up by item ID, then call ID, then output slot |
| `ChatCompletion.ChatCompletionState.OutputIndexForEvent` | internal/codexonly/chat_completions.go:1081-1098 | the slot of an event: given, known from the item, or the next free one |
| `ChatCompletion.ChatCompletionState.ToolIndexForPayload` | internal/codexonly/chat_completions.go:1100-1122 | the tool that an argument event names, else the current tool, else none; never creates one |
| `ChatCompletion.ChatCompletionState.ReconcileStreamingOutputItem` | internal/codexonly/chat_completions.go:1124-1135 | reconciles a finished item with what was streamed |
| `ChatCompletion.ChatCompletionState.ReconcileTextSnapshot` | internal/codexonly/chat_completions.go:1137-1150 | appends the rest of a snapshot or refuses it |
| `ChatCompletion.ChatCompletionState.ReconcileToolSnapshot` | internal/codexonly/chat_completions.go:1152-1164 | as the specification's tool reconciliation |
| `ChatCompletion.ChatCompletionState.ReconcileToolArguments` | internal/codexonly/chat_completions.go:1166-1179 | appends the rest of the arguments or refuses them |
| `ChatCompletion.ChatCompletionState.ReplaceToolItems` | internal/codexonly/chat_completions.go:877-942 | aggregate mode rebuilds all tool calls from the snapshot |
| `ChatModes.SameSlotsIff` | internal/codexonly/chat_completions.go:781-790 | on runs that both modes accept, every item gets the same slot in both if and only if, at each event that leaves the slot open, both tool tables have the same slot on record for the item, or neither has one |
| `ChatModes.ModesAgreeOnItemsIff` | internal/codexonly/chat_completions.go:738-836 | both modes hold the same items throughout if and only if each item goes into one slot in both, or into two that hold it already |
| `ChatModes.ModesAgreeOnItems` | internal/codexonly/chat_completions.go:738-836 | tool tables that agree on every item without a slot leave both modes with the same items |
| `ChatModes.NamedSlotsSuffice` | internal/codexonly/chat_completions.go:1081-1098 | runs whose items all name their slots are of that kind |
| `ChatModes.TerminalsAgree` | internal/codexonly/chat_completions.go:854-942 | from the same items a terminal event with output gives both modes the same text and finish reason |
| `ChatModes.ModesAgree` | internal/codexonly/chat_completions.go:738-986 | on runs that both modes accept and that place items alike, both end with the same text and finish reason |
| `ChatModes.StoppedIffTextHasStop` | internal/codexonly/chat_completions.go:1306-1357 | the filter stops exactly when the whole text has a stop sequence |
| `ChatModes.ClientsAgree` | internal/codexonly/chat_completions.go:554-722 | a streaming client assembles the text an aggregate client is sent, with the same finish reason |
| `ChatModes.EndedRunsHaveReason` | internal/codexonly/chat_completions.go:854-875 | a run that ended has a finish reason |
| `ChatModes.ImplicitSlotsDiffer` | internal/codexonly/chat_completions.go:738-942 | a call reported done twice without a slot and a message: both modes accept the run, and the aggregate text is the streamed text twice |
| `ChatModes.KnownToBothCanDiffer` | internal/codexonly/chat_completions.go:1081-1098 | an item known to both tool tables can have different slots on record |
| `ChatModes.NextSlotIsAboveAll` | internal/codexonly/chat_completions.go:1081-1098 | the slot that the next item without one gets is the one after the highest that was handed out or named |
| `SseReader.NextReplays` | internal/codexonly/chat_completions.go:1396-1441 | parsing the bytes of one event again gives that event and leaves what follows |
| `SseReader.ReplayGivesSameEvents` | internal/codexonly/chat_completions.go:1372-1441 | parsing the joined bytes of all events gives the same events, for every input |
| `SseReader.EventsAreBounded` | internal/codexonly/chat_completions.go:1396-1459 | no event is larger than the limit |
| `SseReader.SecondPassAgrees` | internal/codexonly/chat_completions.go:554-590 | whatever the buffering first pass accepts, the second pass accepts with the same state |
| `SseFormat.RenderedIsParsed` | internal/codexonly/chat_completions.go:1396-1441 | for any list of name, data, comment and unknown fields, written with the literal bytes of the format and either line ending: the text is parsed to the last name and the joined data, and what follows is left; without data it is passed over, beyond the limit refused |
| `SseFormat.NameAndDataAreParsed` | internal/codexonly/chat_completions.go:1396-1441 | a name and data lines give the trimmed name and the lines joined by newlines |
| `SseFormat.FieldHasEffect` | internal/codexonly/chat_completions.go:1412-1438 | what one line does to the event; comments and unknown fields do nothing |
| `SseFormat.DataIsJoined` | internal/codexonly/chat_completions.go:1424-1430 | data lines are joined by newlines, except that empty ones in front leave no trace |
| `SseFormat.LastEventIsParsed` | internal/codexonly/chat_completions.go:1396-1410 | an input that ends without a blank line ends with the event heard so far, if it has data, and with the read error if that ended it |
| `SseReader.ResponsesSSEReader.ReadBoundedLine` | internal/codexonly/chat_completions.go:1443-1459 | reads one line in fragments, up to the limit |
| `SseReader.ResponsesSSEReader.NextEvent` | internal/codexonly/chat_completions.go:1396-1441 | yields the next event of the specification with its raw bytes |
| `SseReader.ResponsesSSEReader.PrepareAggregate` | internal/codexonly/chat_completions.go:1461-1522 | the first pass stops at the first event that the state refuses and otherwise keeps all bytes |
| `AuthHealth.AgreeMeans` | internal/codexonly/auth_health.go:721-726 | a row exists exactly for invalid grant, unauthorized or authoritative quota with a deadline, and repeats the state |
| `AuthHealth.StepKeepsInv` | internal/codexonly/auth_health.go:225-577 | every operation, also one whose store call fails part way, keeps memory and table in agreement and exclusions bounded |
| `AuthHealth.RunKeepsInv` | internal/codexonly/auth_health.go:225-577 | the same for every run after a successful restore |
| `AuthHealth.RestartedIsInv` | internal/codexonly/auth_health.go:225-268 | a restore establishes the agreement |
| `AuthHealth.RestartRestoresExactly` | internal/codexonly/auth_health.go:225-268 | a restart brings back exactly the durable states of present auths, unexpired and with matching fingerprint for credential kinds |
| `AuthHealth.StepKeepsQuota` | internal/codexonly/auth_health.go:270-485 | before its deadline an authoritative quota survives everything but clearing, removal and the marks that replace it |
| `AuthHealth.RunKeepsQuota` | internal/codexonly/auth_health.go:270-663 | the same over runs of any length, restarts included |
| `AuthHealthRun.MarkIsRecorded` | internal/codexonly/auth_health.go:270-322 | a mark that is stored leaves the auth with the incoming kind, deadline, authority and status, its row exactly for durable states, and all others as they were; only a weak mark meeting an unexpired credential state or authoritative quota changes nothing |
| `AuthHealthRun.MarkedIsBlocked` | internal/codexonly/auth_health.go:487-499 | from then on the auth is blocked for every model |
| `AuthHealthRun.BlocksIff` | internal/codexonly/auth_health.go:324-347 | an auth is blocked for a model if and only if the model is excluded or the auth has a state whose deadline has not passed |
| `AuthHealthRun.ExclusionBlocksModel` | internal/codexonly/auth_health.go:440-485 | an exclusion blocks its model; of those before at most one makes room, an oldest one, and only when there is no room |
| `AuthHealthRun.HealthyLeavesOnlyQuota` | internal/codexonly/auth_health.go:625-649 | a successful MarkHealthy leaves only an authoritative quota before its deadline, lifts the exclusion of the model, and is one more healthy epoch |
| `AuthHealthRun.CredentialHealthyClears` | internal/codexonly/auth_health.go:417-438 | working credentials clear a credential state and no other, in one more healthy epoch |
| `AuthHealthRun.ClearingClearsCooldown` | internal/codexonly/auth_health.go:374-396 | clearing a cooldown clears a quota or transient state with a deadline and no other, in one more healthy epoch |
| `AuthHealthRun.PruneLeavesUnexpired` | internal/codexonly/auth_health.go:501-524 | a successful prune leaves exactly the states whose deadline has not passed |
| `AuthHealthRun.RemovedIsForgotten` | internal/codexonly/auth_health.go:526-577 | states and exclusions of removed auths are gone, whatever other changes come with the removal |
| `AuthHealthRun.ChangedCredentialsAreForgiven` | internal/codexonly/auth_health.go:526-577 | after an update no credential state or exclusion is about other credentials than the auth has now |
| `AuthHealthRun.UnchangedAuthsStay` | internal/codexonly/auth_health.go:526-577 | auths that no change is about keep their state, row, exclusions and epoch |
| `AuthHealthRun.ChangeMovesEpoch` | internal/codexonly/auth_health.go:526-586 | a removal starts an auth's healthy epochs over, and changed credentials are one more |
| `AuthHealthRun.ReconcileGoesThrough` | internal/codexonly/auth_health.go:526-577 | a reconciliation that reports success has gone through all changes and has dropped what is past its deadline |
| `AuthHealthRun.StateLasts` | internal/codexonly/auth_health.go:270-577 | over every run a recorded state stays as it is until one of the operations that may end it, listed with their conditions |
| `AuthHealthRun.MarkedStaysBlocked` | internal/codexonly/auth_health.go:270-577 | over every run a marked auth stays blocked for every model until then, or until its deadline |
| `AuthHealth.SafeCodeIsStable` | internal/codexonly/auth_health.go:734-752 | a code made safe once stays as it is |
| `AuthHealth.SafeTextIsStableWhenTrimmed` | internal/codexonly/auth_health.go:754-760 | a text made safe once stays as it is exactly when cutting left no space at its end |
| `AuthHealth.SafeTextIsTrimmedIff` | internal/codexonly/auth_health.go:754-760 | cutting leaves a space at the end exactly when the trimmed text is too long and its 128th character is a space |
| `AuthHealth.RowRepeatsReasonIff` | internal/codexonly/auth_health.go:270-322 | the row repeats the reason in memory unless the incoming reason was cut right after a space |
| `AuthHealth.CutCanLeaveSpace` | internal/codexonly/auth_health.go:754-760 | a reason for which it fails |
| `AuthHealth.ModelIsNormalized` | internal/codexonly/auth_health.go:665-686 | a model identifier is used as it is, without the spaces around it |
| `AuthHealthRegistry.Registry.Restore` | internal/codexonly/auth_health.go:225-268 | does the restart of the specification or reports the store's error |
| `AuthHealthRegistry.Registry.MarkUnavailable` | internal/codexonly/auth_health.go:270-322 | does the mark of the specification, store failures included |
| `AuthHealthRegistry.Registry.MarkHealthy` | internal/codexonly/auth_health.go:398-415 | heals the auth, keeps an unexpired authoritative quota and bumps the epoch |
| `AuthHealthRegistry.Registry.MarkHealthyLocked` | internal/codexonly/auth_health.go:625-649 | as `MarkHealthy`, under the lock |
| `AuthHealthRegistry.Registry.MarkCredentialHealthy` | internal/codexonly/auth_health.go:417-438 | heals credential kinds only |
| `AuthHealthRegistry.Registry.MarkModelUnsupported` | internal/codexonly/auth_health.go:440-485 | adds a model exclusion, evicting the oldest beyond 64 |
| `AuthHealthRegistry.OldestExclusion` | internal/codexonly/auth_health.go:688-700 | finds the oldest exclusion, ties broken by name |
| `AuthHealthRegistry.Registry.ClearCooldown` | internal/codexonly/auth_health.go:374-396 | clears a quota or transient state and its row |
| `AuthHealthRegistry.Registry.PruneExpired` | internal/codexonly/auth_health.go:501-524 | drops expired states and their rows, stopping at the first store error |
| `AuthHealthRegistry.Registry.Reconcile` | internal/codexonly/auth_health.go:526-577 | follows removals and credential changes, stopping at the first store error |
| `AuthHealthRegistry.Registry.State` | internal/codexonly/auth_health.go:324-347 | the state that counts for a model: its exclusion, else the auth's own |
| `AuthHealthRegistry.Registry.Blocked` | internal/codexonly/auth_health.go:487-499 | that state, unless its deadline has passed |
| `FailoverLog.TwoAttemptsPerCandidate` | internal/codexonly/failover.go:132-243 | in every log each selected candidate is refreshed at most once and attempted at most twice |
| `FailoverLog.TotalWaitIsBounded` | internal/codexonly/failover.go:245-290 | waits of bounded length add up to at most their number times the bound |
| `FailoverLog.RoundIsBounded` | internal/codexonly/failover.go:132-150 | a round whose picks are distinct selects no more eligible candidates than there are allowed auths |
| `FailoverLog.AbandonedIsBlamed` | internal/codexonly/failover.go:152-243 | before another candidate is looked for, the one before has been marked as failed |
| `FailoverLog.SelectedAreBlamed` | internal/codexonly/failover.go:152-243 | when no candidate is in use, every auth that was selected is in the failure aggregate |
| `FailoverLog.BlameIsForFailures` | internal/codexonly/failover.go:76-84 | the failure aggregate never holds a success or an error of the request itself |
| `Failover.RuledGrows` | internal/codexonly/failover.go:132-243 | the rules of a log, checked for the next event only, hold for the whole log |
| `Failover.BudgetsHold` | internal/codexonly/failover.go:129-290 | rounds within their limits give at most two attempts per allowed or capped candidate and round, and bounded waiting |
| `Failover.ExecuteUpstream` | internal/codexonly/failover.go:100-293 | terminates; candidates of a round are distinct; one attempt when not replayable, else 2·(rounds)·k plus strays; waits bounded; a served response is the last one and from its auth; a refusal comes at the end of a round and has the right error; an abort names the failed call as the last event of its log |
| `Failover.UpstreamExecution.Run` | internal/codexonly/failover.go:129-293 | the outer loop, with the same contract on the object |
| `Failover.UpstreamExecution.Round` | internal/codexonly/failover.go:132-243 | the inner loop ends with nobody left or the credential budget used up, and selects only what the round's budget allows |
| `Failover.UpstreamExecution.UseCandidate` | internal/codexonly/failover.go:152-243 | prepares and attempts one candidate and blames it before going on |
| `Failover.UpstreamExecution.HandleResponse` | internal/codexonly/failover.go:188-241 | what becomes of a classified response, replayable or not |
| `Failover.UpstreamExecution.RepairUnauthorized` | internal/codexonly/failover.go:295-387 | one refresh and one more attempt after a 401 |
| `Failover.UpstreamExecution.FinishRound` | internal/codexonly/failover.go:245-292 | waits for the earliest time at which an auth may be usable again and goes on, or refuses with the reason |
| `Failover.NearestCooldown` | internal/codexonly/failover.go:465-492 | finds the earliest time at which an allowed auth may be usable again, past failures counting from now |
| `Failover.NearestIsUnique` | internal/codexonly/failover.go:477-491 | that time does not depend on the order the aggregate is walked in |
| `Failover.CountAuth` | internal/codexonly/failover.go:509-545 | counts an auth under the verdict on it |
| `Failover.FinalProxyError` | internal/codexonly/failover.go:494-587 | the error that the verdicts on the allowed auths call for, stated without counting |
| `Failover.FinalErrorIsUnique` | internal/codexonly/failover.go:546-587 | the verdicts leave no choice of error |
| `Failover.FreeMeansIdle` | internal/codexonly/failover.go:509-545 | there is a free verdict exactly when an allowed, enabled, unblocked auth is not in the failure aggregate |
| `Failover.RateLimitedWithFreeIff` | internal/codexonly/failover.go:553-580 | with a free auth among the verdicts the error is "rate limited" if and only if there is a quota verdict and either no transient one or a quota deadline within reach |
| `Failover.RateLimitedDespiteFreeIff` | internal/codexonly/failover.go:494-587 | the same for every refused request with such an auth, which was never selected |
| `Failover.RateLimitedDespiteFreeAuth` | internal/codexonly/failover.go:132-293 | a log of a request that is refused as rate limited with the second of its two auths free and untouched |
| `FailoverErrors.AggregateIsLastFault` | internal/codexonly/failover.go:152-243 | the failure aggregate holds the last failure of each auth, with its verdict, its retry time and its code: a minute after a network error or a refresh that may be retried, else as the response says |
| `FailoverErrors.VerdictIsStanding` | internal/codexonly/failover.go:509-545 | what an auth counts as: blocked in the registry, else as the request last found it; disabled beats all but a missing model |
| `FailoverErrors.RefusalFollowsFromLog` | internal/codexonly/failover.go:494-587 | the error of a refused request follows from how its auths stand, told from the log and the registry |
| `FailoverErrors.UniformRefusal` | internal/codexonly/failover.go:546-587 | if all auths stand alike: model not found, authentication unavailable, rate limited until the given time, or upstream unavailable |
| `FailoverErrors.WaitIsForFirst` | internal/codexonly/failover.go:245-290 | a request waits until the first time at which one of its auths may be usable again, neither longer nor shorter: a cooldown of an active auth it may use, or the retry time of an auth's last failure |
| `FailoverErrors.LastRoundWaited` | internal/codexonly/failover.go:245-290 | a request given up after its last round has waited once for each configured retry; one given up because the wait is too long would have waited beyond the interval |
| `RefreshFlight.StepKeepsInv` | internal/codexonly/server.go:129-220 | every critical section keeps the tables of calls and callers consistent |
| `RefreshFlight.RunKeepsInv` | internal/codexonly/server.go:129-220 | the same over every interleaving |
| `RefreshFlight.OneLeaderPerAuth` | internal/codexonly/server.go:142-170 | at most one refresh per auth is running |
| `RefreshFlight.JoinersGetLeadersResult` | internal/codexonly/server.go:146-158 | whoever joined and was not cancelled returns exactly what the leader returned |
| `RefreshFlight.OneExchangePerFailedToken` | internal/codexonly/server.go:181-220 | of all callers with the same rejected token, in any order, at most one exchange succeeds, given that new credentials have another token |
| `RefreshFlight.SuccessMeansNewToken` | internal/codexonly/server.go:113-118 | a caller is never handed the token it reported if its leader reported the same one or was forced |
| `RefreshFlight.JoinerMayGetStoredToken` | internal/codexonly/server.go:146-158 | a run without any exchange in which a joiner, forced or not, gets the stored token |
| `RefreshFlightRun.OutcomeHasCause` | internal/codexonly/server.go:165-220 | over every run, what a leader decides has its own cause: credentials from the exchange or stored ones that were replaced meanwhile, "exchange failed" only after a failed exchange, "reload failed" and "not available" only after a failed reload or without a usable file |
| `RefreshFlightRun.LeaderReturnsAnswer` | internal/codexonly/server.go:212-220 | over every run, a leader that exchanged returns just what the exchange answered, and has saved the credentials |
| `RefreshFlightRun.LeaderExchangesIff` | internal/codexonly/server.go:181-212 | a leader exchanges if and only if the reload succeeded, the auth is there and usable, and its stored token was not replaced meanwhile |
| `RefreshFlightRun.CallersReturnAnswer` | internal/codexonly/server.go:142-179 | over every run, every caller of such a call that was not cancelled returns that answer |
| `RefreshFlightRun.CanceledHasCause` | internal/codexonly/server.go:146-158 | over every run, "cancelled" is returned only to a caller that was cancelled |
| `RefreshFlightRun.ReturnedHasCause` | internal/codexonly/server.go:142-220 | over every run, every returned result has one of these causes |
| `RefreshFlight.AuthManager.Arrive` | internal/codexonly/server.go:142-163 | joins the call in flight or opens one |
| `RefreshFlight.AuthManager.Decide` | internal/codexonly/server.go:181-212 | reuses the stored token or starts an exchange |
| `RefreshFlight.AuthManager.Finish` | internal/codexonly/server.go:212-220 | stores what the exchange brought |
| `RefreshFlight.AuthManager.Close` | internal/codexonly/server.go:165-179 | publishes the result and closes the call |
| `RefreshFlight.AuthManager.Await` | internal/codexonly/server.go:146-158 | returns the leader's result, or the cancellation |
| `ModelCatalog.WithoutMeans` | internal/codexonly/models.go:451-455 | taking an entry out of the list keeps the others and their order |
| `ModelCatalog.OpenedKeepsLru` | internal/codexonly/models.go:451-477 | opening a version keeps list and map in bijection, ordered by last use, at most 16, with the version in front |
| `ModelCatalog.EvictedKeepsLru` | internal/codexonly/models.go:465-475 | eviction drops the entry used longest ago and no other |
| `ModelCatalogRun.StepKeepsInv` | internal/codexonly/models.go:150-366 | every step keeps the invariant of versions, fetches and cycles, a removal unless work for the auth is under way in a cached entry |
| `ModelCatalogRun.RemovalKeepsInvIff` | internal/codexonly/models.go:264-278 | a removal keeps the invariant if and only if nothing is under way for the auth in a cached entry |
| `ModelCatalogRun.BusyRemovalDoublesFetch` | internal/codexonly/models.go:165-308 | after any other removal, a request for the auth starts a second fetch beside the one in flight |
| `ModelCatalogRun.RunKeepsLru` | internal/codexonly/models.go:451-481 | in every run at most 16 versions are cached, in bijection with the list |
| `ModelCatalogRun.OneFetchInFlight` | internal/codexonly/models.go:165-308 | never two fetches in flight for one auth of one entry, in runs whose removals hit nothing under way |
| `ModelCatalogRun.OneFetchPerVersion` | internal/codexonly/models.go:165-308 | of the fetches that can still report for a version string, one at most is in flight for an auth |
| `ModelCatalogRun.CycleIsBounded` | internal/codexonly/models.go:310-354 | in the same runs a cycle fetches at most once and three retries, until the catalog is closed |
| `ModelCatalogRun.NewCycleIsDue` | internal/codexonly/models.go:178-204 | in the same runs a new cycle opens only a TTL after the last one began, or once the healthy epoch rose past exhaustion |
| `ModelCatalogRun.EvictedIsFrozen` | internal/codexonly/models.go:451-481 | in every run an evicted entry stays evicted and is never changed again |
| `ModelCatalogRun.StaleResultsAreDropped` | internal/codexonly/models.go:280-354 | at any later point of a run, a result for it changes nothing but the list of tasks |
| `ModelCatalogRun.FailuresKeepSnapshots` | internal/codexonly/models.go:280-354 | over any run only a successful fetch of the auth, or its removal, changes its snapshot |
| `ModelCatalogRun.FetchIsStored` | internal/codexonly/models.go:280-366 | a successful fetch for a cached entry leaves exactly its models there, fetched now, with nothing under way and no cycle |
| `ModelCatalogRun.FailedFetchGoesOn` | internal/codexonly/models.go:293-354 | a failed one is retried in the background three times, after which the cycle rests at the healthy epoch of that moment |
| `ModelCatalogRun.RequestFetchesIff` | internal/codexonly/models.go:178-214 | a request starts a fetch for an auth if and only if its snapshot is older than a TTL, nothing is under way, and the cycle does not rest |
| `ModelCatalogRun.RequestForOne` | internal/codexonly/models.go:178-214 | an auth that was never healthy counts as being in epoch 0 |
| `ModelCatalogRun.ViewMovesToFront` | internal/codexonly/models.go:224-243 | looking at a cached version moves it to the front of the list and leaves the order of the others |
| `ModelCatalogRun.ReaddedAuthGetsOldFetch` | internal/codexonly/models.go:165-308 | a run from the start: after a removal during a retry two fetches are in flight for one auth, and the old result is filed for the auth that was added again |
| `ModelCatalogRun.FetchStartsAlone` | internal/codexonly/models.go:178-214 | a fetch is started only when no task for that auth exists |
| `ModelCatalogRuntime.RuntimeModelCatalog.Catalog` | internal/codexonly/models.go:150-222 | opens the version, asks for every auth in turn, and returns the calls to wait for |
| `ModelCatalogRuntime.RuntimeModelCatalog.AskFor` | internal/codexonly/models.go:172-214 | skips, joins or starts the fetch of one auth as the decision says |
| `ModelCatalogRuntime.RuntimeModelCatalog.OpenVersion` | internal/codexonly/models.go:451-477 | finds or adds the version and evicts |
| `ModelCatalogRuntime.RuntimeModelCatalog.Touch` | internal/codexonly/models.go:368-379 | marks a still cached entry as used |
| `ModelCatalogRuntime.RuntimeModelCatalog.FinishForeground` | internal/codexonly/models.go:280-308 | applies the result, drops it, or hands over to the background |
| `ModelCatalogRuntime.RuntimeModelCatalog.FinishBackground` | internal/codexonly/models.go:339-354 | ends the background work of a still cached auth |
| `ModelCatalogRuntime.RuntimeModelCatalog.EndPause` | internal/codexonly/models.go:318-324 | sends the retry or gives up when cancelled |
| `ModelCatalogRuntime.RuntimeModelCatalog.FinishRetry` | internal/codexonly/models.go:325-336 | applies the result, tries again, or exhausts the cycle |
| `ModelCatalogRuntime.RuntimeModelCatalog.ApplyFetchSuccess` | internal/codexonly/models.go:356-366 | stores the snapshot and clears the cycle |
| `ReplayStore.DeliveredAppend` | internal/codexonly/session_affinity.go:673-693 | readers one after the other deliver the bytes of the first, then what the rest delivers |
| `ReplayStore.RebuiltBodyIsFaithful` | internal/codexonly/session_affinity.go:673-693 | replayed bytes, then the source's error or the rest of the original, deliver what the original body would have |
| `ReplayStore.ReadData` | internal/codexonly/session_affinity.go:400-412 | bytes read after an error do not move the error's offset |
| `ReplayStore.InspectBody` | internal/codexonly/session_affinity.go:234-258 | however the decoder reads and whatever fails, the new body delivers the original bytes and then the original error |
| `ReplayStore.ReplayReader.Read` | internal/codexonly/session_affinity.go:555-577 | what was read is stored in order; never more than 64 KiB in memory |
| `ReplayStore.SourceReader.Read` | internal/codexonly/session_affinity.go:400-412 | remembers the first error and the bytes before it |
| `ReplayStore.ReplayStore.PrepareRead` | internal/codexonly/session_affinity.go:579-584 | makes room, losing nothing when spilling fails |
| `ReplayStore.ReplayStore.SpillToFile` | internal/codexonly/session_affinity.go:610-637 | moves memory to a file or leaves everything as it was |
| `ReplayStore.ReplayStore.Append` | internal/codexonly/session_affinity.go:586-608 | stores all bytes even when a file write falls short |
| `UnicodeText.DecodeIsCharLength` | internal/codexonly/session_affinity.go:424-457 | Go's rune decoding accepts exactly the UTF8-char production of RFC 3629 |
| `UnicodeText.ScanDecidesUtf8` | internal/codexonly/session_affinity.go:424-457 | decoding from the front without error and without rest is UTF-8 validity of the whole input |
| `UnicodeText.ScanAppend` | internal/codexonly/session_affinity.go:424-457 | going on with what was left is like decoding everything at once |
| `UnicodeText.PairedFromStart` | internal/codexonly/session_affinity.go:513-532 | reading left to right with one flag decides that escapes are complete and surrogates paired |
| `UnicodeText.StringIsPairedIff` | internal/codexonly/session_affinity.go:459-532 | a JSON string written down from characters, escapes and four-digit codes in either case is accepted if and only if its surrogate codes stand in pairs, the high one first |
| `UnicodeText.StringIsPieces` | internal/codexonly/session_affinity.go:459-532 | and is taken apart into just those pieces |
| `UnicodeValidator.EscapesAreDecided` | internal/codexonly/session_affinity.go:459-540 | the byte-by-byte machine accepts exactly texts whose surrogate escapes are paired |
| `UnicodeValidator.BrokenIsRejected` | internal/codexonly/session_affinity.go:459-485 | a `\u` escape with a wrong digit or cut short is never accepted |
| `UnicodeValidator.FourDigitsMakeCode` | internal/codexonly/session_affinity.go:471-485 | four hex digits give their 16-bit value |
| `UnicodeValidator.ValidateChunks` | internal/codexonly/session_affinity.go:414-540 | for every split into chunks the verdict is UTF-8 validity and surrogate pairing of the whole input |
| `UnicodeValidator.JsonUnicodeValidator.Write` | internal/codexonly/session_affinity.go:414-422 | a chunk takes the validator from the text so far to the text with the chunk |
| `UnicodeValidator.JsonUnicodeValidator.ValidateUtf8` | internal/codexonly/session_affinity.go:424-457 | the pending bytes fit in four and are the unfinished character; errors are found where the whole text has them |
| `UnicodeValidator.JsonUnicodeValidator.ValidateStringByte` | internal/codexonly/session_affinity.go:459-511 | one step of the machine |
| `UnicodeValidator.JsonUnicodeValidator.FinishUnicodeEscape` | internal/codexonly/session_affinity.go:513-532 | what a complete escape does |
| `UnicodeValidator.JsonUnicodeValidator.Valid` | internal/codexonly/session_affinity.go:534-540 | the verdict on everything written |
| `UsageCapture.LinesAreFound` | internal/codexonly/usage_proxy.go:107-158 | scanning byte by byte finds what the left fold over the newline-separated lines finds |
| `UsageCapture.LinesExist` | internal/codexonly/usage_proxy.go:107-118 | every payload has such lines |
| `UsageCapture.LastReportIsLast` | internal/codexonly/usage_proxy.go:132-158 | the fold over the lines ends with the report of the last line that has one |
| `UsageCapture.DataLineReports` | internal/codexonly/usage_proxy.go:132-158 | a line "data:" and JSON, written with the literal bytes and any blanks around, reports what is extracted from the JSON if that holds the field name "usage" and is not the end mark |
| `UsageCapture.BareLineReports` | internal/codexonly/usage_proxy.go:132-158 | a bare object or array reports likewise, and any other text does not |
| `UsageCapture.LongLineReportsNothing` | internal/codexonly/usage_proxy.go:120-130 | a line of more than a mebibyte reports nothing |
| `UsageCapture.CaptureChunks` | internal/codexonly/usage_proxy.go:63-158 | for every chunking: first bytes up to the limit, truncated exactly when there were more, and the usage that the fold over all lines finds |
| `UsageCapture.UsageCaptureReader.Capture` | internal/codexonly/usage_proxy.go:80-96 | a chunk takes the capture from the payload so far to the payload with the chunk |
| `UsageCapture.UsageCaptureReader.CaptureUsageLines` | internal/codexonly/usage_proxy.go:107-118 | cuts a chunk at its newlines |
| `UsageCapture.UsageCaptureReader.AppendUsageLine` | internal/codexonly/usage_proxy.go:120-130 | keeps the unfinished line, or only that it is too long |
| `UsageCapture.UsageCaptureReader.FlushUsageLine` | internal/codexonly/usage_proxy.go:132-158 | takes the usage of a finished line, trimmed as bytes.TrimSpace does, unless the line is too long |
| `UsageCapture.UsageCaptureReader.FinishOnce` | internal/codexonly/usage_proxy.go:98-105 | reports once, with the unfinished last line |
| `UsageTimeseries.KeySumsAreTableSum` | internal/codexonly/usage.go:400-500 | distinct keys that cover all selected rows have sums that add up to the rows' total |
| `UsageTimeseries.SharePointIff` | internal/codexonly/usage.go:438-482 | two rows count for the same point if and only if they fall in one step and agree on every requested group |
| `UsageTimeseries.PointNamesGroups` | internal/codexonly/usage.go:554-573 | a point names its rows' values of the requested groups and leaves the others blank |
| `UsageTimeseries.WindowsAddUp` | internal/codexonly/usage.go:400-436 | two windows that meet have totals that add up to those of the window of both |
| `UsageTimeseries.UserFilterSelects` | internal/codexonly/usage.go:419-426 | the series of one user is what the series of all users, grouped by user, has for that user |
| `UsageTimeseries.ApiKeyFilterSelects` | internal/codexonly/usage.go:419-426 | the same for one API key |
| `UsageTimeseries.NamesAscend` | internal/codexonly/usage.go:493-498 | within a bucket points come in the order of their names |
| `UsageTimeseries.GridIsWindow` | internal/codexonly/usage.go:502-552 | the grid that is filled consists of the buckets that any time of the window falls in |
| `UsageTimeseries.SeriesConserves` | internal/codexonly/usage.go:400-500 | for every group-by and step each counter's total over the series is its total over the selected rows |
| `UsageTimeseries.QueryTimeseries` | internal/codexonly/usage.go:438-500 | one point per key with that key's totals, in order |
| `UsageTimeseries.GroupRows` | internal/codexonly/usage.go:438-482 | the grouping loop |
| `UsageTimeseries.SortPoints` | internal/codexonly/usage.go:493-498 | the same points ordered by bucket, then by joined identity |
| `UsageTimeseries.FillZeros` | internal/codexonly/usage.go:502-552 | exactly one point per identity and grid bucket, the given one or zeros, in order |
| `UsageTimeseries.FillKeepsPoints` | internal/codexonly/usage.go:502-552 | filling keeps every point and adds only zeros |
| `UsageTimeseries.SeriesIsOnGrid` | internal/codexonly/usage.go:693-699 | the points of a query lie on the grid that filling uses |
| `UsageTimeseries.FilledSeriesConserves` | internal/codexonly/usage.go:502-552 | the filled series has the same totals |
| `UsageTimeseries.UsageSeries` | internal/codexonly/usage.go:326-365 | the series a client asks for is the series of its rows, filled with zeros on the whole grid if asked for, in order, with one point per key, and conserves every counter |

## Left out

- HTTP, WebSocket and reverse-proxy plumbing, CLI, admin API, logging, request conversion, config and user
  management: no deep invariant. JSON is decoded before the model starts: events are a datatype with the
  fields the state machine reads, malformed input being one constructor.
- SQLite: a table is a map and a transaction one step. The database compares `expires_at` as RFC 3339 text,
  which orders like time only at equal fractional width; the model compares integers.
- SHA-256, JWT and fingerprints are opaque strings; auth files and OAuth HTTP retries are an environment
  that hands out auths, change lists and credentials. No security claims.
- Integer widths: counters, epochs and output indexes are unbounded; indexes near the 64-bit limit and
  `time.Duration` overflow from a retry interval beyond 292 years are not modelled.
- Session affinity: counting bindings and extracting signals from requests; times are after year 1.
- `Selection.Selector.SelectCandidate`: the reconcile, prune and cleanup calls at the start of the method
  are separate steps of the other models and are not repeated in it.
- Chat: id, model and usage metadata; a later change of a tool's id or name, which is not sent again.
  The two modes' lists of calls are each compared with the snapshot, not with each other. The branch of
  `prepareChatCompletionUpstreamResponse` for streaming passes through and has no state.
- Auth health: texts are measured in characters, not bytes.
- `Failover.ExecuteUpstream`: strays are bounded by a parameter, because with an unbounded stream of other
  requests moving the session and no credential limit the source's loop has no bound either. The health
  registry's marks are those of `AuthHealth`; here a mark is an event that may fail. Status codes and
  reasons of failures, which no branch reads, are dropped.
- `RefreshFlight`: an auth's key is its ID; a request whose ID is blank falls back to a derived one.
- Model catalog: entries are kept in a map by identity instead of as linked objects, and a fetch in flight
  is an entry in a table of tasks. Merging snapshots into one view is not modelled. All times lie more than
  one TTL after Go's zero time.
- `ReplayStore.InspectBody`: the decoder's reads are arbitrary; what it parses is not modelled. A reader
  that returns nothing and no error forever is excluded, as `io.Reader` discourages.
- Usage capture: reading counters from JSON is a function parameter.
- `UsageTimeseries.QueryTimeseries`: the query's own SUM and GROUP BY over finer keys are folded into the
  grouping loop. The guarantees are for buckets after the first step of year 1: a point in a bucket at Go's
  zero time is taken for missing by the source and the model alike. The sort is an insertion sort.
- Usage snapshots, pruning, `subtract` and `normalized`: easy members.

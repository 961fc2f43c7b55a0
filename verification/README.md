# Kuma control plane: protocol, access-log language and policy selection, verified

A Dafny model of the parts of the Kuma control plane whose correctness is hardest to see from the
code, with machine-checked proofs of what they are for.

* **Streaming.** The snapshot cache with its table of open watches and capacity-1 channels
  (`CacheModel`, `SnapshotCache`), the event loops of the xDS and the MADS server (`StreamModel`,
  `StreamServer`), the versioners (`Versioner`), racing reconcilers (`VersionHistory`), the whole xDS
  server (`XdsModel`) and the whole MADS system with a client at the other end of every stream
  (`MadsModel`, `MadsClient`). Each call
  into the cache is one atomic step, and every step makes at most one: a request takes up to three
  (`Fetch`, the slot's cancel function, `CreateWatch` or scheduling what was fetched) and the end of
  a stream one per slot, with anything in between. `select` is a free choice, a channel is a sequence
  with counts of sends and closes, and UUIDs come from an oracle of fresh non-empty strings. One
  stream model serves both servers: the xDS server has six slots and a cache in ADS mode, the MADS
  server one slot and a cache in the other mode. The proofs are invariants of every step
  (`StreamProofs`, `XdsProofs`, `MadsProofs`), theorems over every run (`StreamTheorems`,
  `StreamRequests`, `StreamQuiet`, `ReconcileTheorems`, `PushTheorems`, `XdsTheorems`,
  `MadsTheorems`), and runs that show where a property ends
  (`StreamWitnesses`, `XdsWitnesses`, `MadsWitnesses`, `FirstReconcile`).
* **Access logs.** The format language: scanner, operator parsers, canonical printer, placeholder
  interpolation, formatting and the derivation of what Envoy has to capture (`AccessLogSyntax`,
  `AccessLogParser`, `AccessLogOperators`, `AccessLogRoundTrip`, `AccessLogShortest`,
  `AccessLogFormat`, `AccessLogValues`, `AccessLogInterpolation`, `AccessLogCapture`, `AccessLogNeed`). The token rule is a deterministic scanner instead of a regular expression.
* **Policies and topology.** Ranks and specificity of selectors (`TagSelectors`), stable sorting by
  name (`Names`), the selection of connection and dataplane policies (`PolicyModel` says what is
  selected, `PolicySpecificity` what that means in terms of tags, `PolicyMatcher`, `InboundMatcher` and
  `DataplaneMatcher` are the loops), the pipeline from routes to endpoints (`Topology`), and the
  generation of outbound resources (`ResourceSets`, `ClusterNames`, `Protocols`, `OutboundGenerator`,
  `OutboundTheorems`, `OutboundRouting`).
* **Discovery statistics.** Counting per stream and flushing into a store guarded by versions, with
  any number of streams per dataplane (`StatusModel`, `StatusSteps`, `StatusFinalFlush`,
  `StatusTracker`).

Code that updates things in place is modelled by classes and loops whose contracts tie the new state
to a function of the old one; properties over several calls are lemmas about those functions.

Some properties hold only under a condition. Of these the exact condition is proved in both
directions, and there is a lemma with inputs that fail:

* Re-parsing an interpolated format gives that format exactly if no placeholder is bound to text with
  a `%`. If none is, formatting with the re-parsed form gives the same line exactly if none is bound
  to the empty string (`AccessLogInterpolation`).
* Selecting policies for inbounds dereferences a nil policy exactly if the first selector that matches
  some inbound, in name order, is the empty one (`InboundMatcher.CrashCondition`,
  `EmptySelectorCrashes`). Validation rejects such policies: `traffic_permission_validator.go` and
  `fault_injection_validator.go` require at least one tag per destination selector. For validated
  policies `NonEmptySelectorsNeverCrash` is what counts.
* The endpoints looked up for a destination are those of a direct scan of the mesh exactly unless its
  service is `*` and a matching inbound has a service of its own (`Topology.PipelineAgrees`,
  `WildcardServiceFindsNothing`).
* `Total` is the sum of the four per-type counters exactly if no event of another type was counted
  (`StatusModel.CountersAreConserved`, `OtherTypesBreakTheSum`).
* The final state of a stream reaches the store exactly if there was nothing left to flush, or the
  final read and write succeed and no other stream of the dataplane writes in between; there is no
  second attempt (`StatusFinalFlush.FinalStateIsStored`, `DisconnectTimeLost`).
* A stale watch that `SetSnapshot` removes is answered exactly unless the cache is in ADS mode, the
  request names resources, and the snapshot has a resource of the type that is not named
  (`CacheModel.StaleWatchIsAnswered`, `DiscardedUnanswered`). The xDS server does run in ADS mode
  (`pkg/core/xds/context.go`, line 19); MADS does not.
* A slot on whose channel nothing has come, on an idle stream of the xDS server, has an open watch
  exactly if neither of the two ADS guards nor an eviction left it alone: when the slot was filled the
  request had the current version, or no snapshot, or was not declined for naming only part of the
  resources, and since then no snapshot with another version of the type was stored that it names only
  part of, and the node was not cleared (`XdsTheorems.QuietSlotIsFresh`;
  `XdsWitnesses.DeclinedAtOnce` and `DiscardedLater` are runs for the two guards). With an open watch,
  the client's version is the current one, and what was sent under it are the current resources.

Two more properties have a condition that is sufficient, with a run that shows why it is there:

* While a stream handles a request it has no watch, and its client may be behind
  (`MadsWitnesses.BusyStreamsMayBeBehind`); it is up to date whenever the loop is idle and nothing is
  in flight (`MadsTheorems.NoChangeIsLost`).
* Endpoints scheduled for a warming cluster are those of the moment of the `Fetch` and may be
  superseded when they are sent. The first echo of them goes to the cache as it is then, and gets the
  current endpoints or leaves a watch (`StreamTheorems.FirstEchoGetsCurrent`), unless ADS mode declines
  it because it names endpoints but not all of the current ones: then it gets neither, and the client
  keeps the superseded endpoints until it asks again (`StreamWitnesses.SupersededNotRepaired`).

`dafny verify dfyconfig.toml` checks the whole project.

## Model

| member | source | states |
|---|---|---|
| `CacheModel.NoStaleOpenWatch` | pkg/util/xds/cache.go:137-164 | At every moment of every run, an open watch of a node that has a snapshot asks with exactly the version the snapshot has for its type. |
| `CacheModel.SendNeverBlocks` | pkg/util/xds/cache.go:224-249 | Over every run, also across `ClearSnapshot` and reuse of a node, a channel sees at most one send, and its buffer is empty when that happens. |
| `CacheModel.StaleWatchIsAnswered` | pkg/util/xds/cache.go:145-161 | `SetSnapshot` removes exactly the stale watches. Each gets one response with a new version and exactly the requested resources, unless the cache is in ADS mode and the request names resources but not all of the type: then nothing is sent. |
| `CacheModel.DiscardedUnanswered` | pkg/util/xds/cache.go:272-282 | A run in ADS mode in which a watch that names one resource is removed by a snapshot with another, and nothing is ever sent on its channel. |
| `CacheModel.CreateWatchWaitsOrAnswers` | pkg/util/xds/cache.go:226-250 | `CreateWatch` opens a watch under an unused id exactly if there is no snapshot or its version is the client's; otherwise it sends one response with exactly the requested resources, unless ADS mode declines. No other watch or channel changes. |
| `CacheModel.FetchAnswersOrSkips` | pkg/util/xds/cache.go:317-339 | `Fetch` fails for a missing snapshot, skips an unchanged version, and otherwise answers with exactly the requested resources, in either mode. |
| `CacheModel.ClearForgetsOneNode` | pkg/util/xds/cache.go:178-185 | `ClearSnapshot` forgets the snapshot and the watches of one node and nothing else. |
| `CacheModel.WatchIdsNeverRepeat` | pkg/util/xds/cache.go:252-254 | Two watches opened at different moments of a run have different ids. |
| `CacheModel.CancelRemovesOnlyItsOwnWatch` | pkg/util/xds/cache.go:256-268 | However late a cancel function is called, it removes the watch it was returned for and no other. |
| `CacheModel.NextKeepsInv` | pkg/util/xds/cache.go:137-339 | Every cache operation keeps the invariant: watches are fresh, have distinct channels of their own, and nothing was sent on them. |
| `CacheModel.RunKeepsInv` | pkg/util/xds/cache.go:96-268 | The invariant holds in every reachable state. |
| `SnapshotCache.NameSet` | pkg/util/xds/cache.go:187-194 | The loop computes the set of the names. |
| `SnapshotCache.Superset` | pkg/util/xds/cache.go:196-204 | Succeeds exactly if every resource is named. |
| `SnapshotCache.CreateResponse` | pkg/util/xds/cache.go:291-315 | All resources if no names are given, otherwise exactly the named ones. |
| `SnapshotCache.SnapshotCache.constructor` | pkg/util/xds/cache.go:127-135 | A new cache is the initial state of the state machine. |
| `SnapshotCache.SnapshotCache.Respond` | pkg/util/xds/cache.go:272-289 | Sends one response, unless ADS mode declines because a resource was not named. |
| `SnapshotCache.SnapshotCache.AnswerStale` | pkg/util/xds/cache.go:146-161 | In whatever order watches are visited, exactly the stale ones are removed and answered. |
| `SnapshotCache.SnapshotCache.SetSnapshot` | pkg/util/xds/cache.go:137-164 | Refines the `SetSnapshot` step and keeps the invariant. |
| `SnapshotCache.SnapshotCache.ClearSnapshot` | pkg/util/xds/cache.go:178-185 | Forgets snapshot and watches of the node and keeps the invariant. |
| `SnapshotCache.SnapshotCache.CreateWatch` | pkg/util/xds/cache.go:206-250 | Refines the `CreateWatch` step: an open watch with a cancel function, or an immediate answer without one. |
| `SnapshotCache.SnapshotCache.Cancel` | pkg/util/xds/cache.go:256-268 | Refines the cancel step, also when the node is no longer known. |
| `SnapshotCache.SnapshotCache.Fetch` | pkg/util/xds/cache.go:317-339 | The requested resources if the version differs; otherwise one of the two errors, for an unchanged version or a missing snapshot. |
| `SnapshotCache.SnapshotCache.MakeFilled` | pkg/xds/server/server.go:182-184 | A new channel that already holds the response. |
| `SnapshotCache.SnapshotCache.Close` | pkg/xds/server/server.go:185-193 | Closes and drains a channel that is not closed yet. |
| `StreamTheorems.NonceFlowControl` | pkg/xds/server/server.go:151-164 | On every stream of every run nonces strictly increase and are distinct, and between two consecutive responses of a type the server acted on a request of that type echoing the first one's nonce. |
| `StreamTheorems.LogOnlyGrows` | pkg/xds/server/server.go:200-344 | Over any stretch of a run the history of a live stream keeps what it has and gains at most one entry per step. |
| `StreamTheorems.StaleNonceChangesNoWatch` | pkg/xds/server/server.go:298-342 | A request that does not echo the current nonce of its type changes no watch, slot, nonce or phase of any stream. |
| `StreamTheorems.EveryWatchHasOneOwner` | pkg/xds/server/server.go:309-341 | Every open watch belongs to exactly one slot of exactly one live stream, which has its type, its channel and its cancel function. |
| `StreamTheorems.GivingUpRemovesOnlyItsOwn` | pkg/xds/server/server.go:83-103 | Giving up a slot, for a new request or at the end of the stream, removes exactly the watch the slot holds. |
| `StreamTheorems.NoWatchOutlivesItsStream` | pkg/xds/server/server.go:143-148 | However a stream ends and whatever others do while it cancels its slots one by one: once it is gone, no watch it ever owned is open, then or later. |
| `StreamTheorems.ClosedAtMostOnceAndNeverSelected` | pkg/xds/server/server.go:182-206 | A channel is closed at most once, and no slot holds a closed channel, so the "watch failed" exits are never taken. |
| `StreamTheorems.AckedMeansEchoed` | pkg/xds/server/server.go:207-212 | `endpointNonceAcked` holds exactly if the latest EDS nonce has been echoed since it was sent. |
| `StreamTheorems.WarmingClusterIsAnswered` | pkg/xds/server/server.go:300-316 | Over every run: a further request with an echoed EDS nonce gets endpoints scheduled, with the request as the client sent it, exactly if at its `Fetch` there is a snapshot with a non-empty version, and then those of that snapshot, whatever happens before the slot is filled. |
| `StreamTheorems.FirstEchoGetsCurrent` | pkg/xds/server/server.go:309-316 | The first echo of a response goes to the cache as it is when the slot is filled: the current resources if the client has another version, else an open watch; nothing if ADS mode declines a request that names only part of the resources. Outside that case superseded endpoints are repaired. |
| `StreamWitnesses.SupersededNotRepaired` | pkg/xds/server/server.go:309-316 | That case: a run in which scheduled endpoints are superseded before they are sent, and the first echo of them, with the old version, is neither answered nor watched. |
| `StreamQuiet.WaitingIsWatched` | pkg/util/xds/cache.go:206-289 | Over any stretch of a run, a slot on whose channel nothing was sent has an open watch if and only if its request was not declined when the slot was filled, and no event since took the watch away without an answer. |
| `StreamTheorems.RequestIsSeenThrough` | pkg/xds/server/server.go:298-342 | Whatever happens between its steps, an accepted request fills its slot with what was fetched when it arrived, or with a watch for it. |
| `StreamRequests.RequestsMean` | pkg/xds/server/server.go:273-342 | Over every run: a request is for the node named last on the stream, also by an ignored request, and for the type it names or else the stream's; the rest is as sent. Without any type the stream ends; it is handled exactly if its type has a slot and it echoes the latest nonce of the type, if there is one; otherwise it is ignored. |
| `StreamRequests.SlotIsFilledFor` | pkg/xds/server/server.go:309-342 | A request that is handled fills the slot of its type for exactly that request. |
| `StreamRequests.NodeIsRemembered` | pkg/xds/server/server.go:273-278 | A request without a node is for the node that an earlier request on the stream named, from its arrival to the filled slot. |
| `StreamTheorems.RunKeepsInv` | pkg/mads/server/mads.go:147-198 | The stream invariant holds in every reachable world, for the xDS and the MADS server, with interference between the steps of a request. |
| `StreamProofs.NextKeepsInv` | pkg/xds/server/server.go:200-344 | Every step, of any stream or of the cache, keeps the invariant of all streams. |
| `StreamProofs.CancelKeepsInv` | pkg/xds/server/server.go:308-311 | So does giving up the old watch of a request: no other slot notices. |
| `StreamProofs.FillKeepsInv` | pkg/xds/server/server.go:312-316 | And so does filling the slot again, in whatever state the cache is by then. |
| `StreamLog.AppendKeepsFlow` | pkg/xds/server/server.go:300-341 | A history stays flow controlled if a response is sent only as the first of its type or after an echo. |
| `StreamLog.NoncesAreDistinct` | pkg/mads/server/mads.go:128-135 | Different serials are printed as different nonces. |
| `StreamServer.StreamServer.constructor` | pkg/xds/server/server.go:137-142 | A new stream starts with empty slots and counter zero. |
| `StreamServer.StreamServer.HandleResponse` | pkg/xds/server/server.go:203-222 | Refines the send step: takes the response off the channel, stamps it with the next nonce, forgets the EDS acknowledgement. |
| `StreamServer.StreamServer.PeekResponse` | pkg/xds/server/server.go:172-181 | What the cache holds whatever the request's version, with that version restored. |
| `StreamServer.StreamServer.HandleRequest` | pkg/xds/server/server.go:264-307 | Refines the first step of any request, up to the `Fetch`: the loop is left, the request is to be acted on, or it is ignored. |
| `StreamServer.StreamServer.CancelSlot` | pkg/xds/server/server.go:308-311 | Refines the second step: notes the echo and calls the cancel function of the slot, which may be called. |
| `StreamServer.StreamServer.FillSlot` | pkg/xds/server/server.go:312-321 | Refines the third step: schedules what was fetched or opens a watch. |
| `StreamServer.StreamServer.CancelNext` | pkg/xds/server/server.go:83-103 | Refines one call of `watches.Cancel`, in the order of the code; each cancel function may be called. |
| `Versioner.Equal` | pkg/util/xds/versioner.go:41-51 | Decides equality of the two maps, not just inclusion. |
| `Versioner.Version` | pkg/util/xds/versioner.go:20-39 | For every type: the generator's version, else the old one if the resources are unchanged and it is not empty, else a new one; resources are kept. |
| `Versioner.AutoVersionMeans` | pkg/util/xds/versioner.go:20-39 | The versioner spelled out: resources are kept, and which of three versions a type gets. |
| `Versioner.WithNewVersion` | pkg/mads/cache/snapshot.go:64-79 | Changes the version of one type and nothing else; leaves a snapshot without that type alone. |
| `VersionHistory.VersionsIdentifyContent` | pkg/xds/server/reconcile.go:33-91 | In every run of racing reconcilers, two snapshots ever stored that share a version for a type have the same resources of it. MADS versions are never empty; an empty version means no resources, also after `Clear`. |
| `VersionHistory.StoredIsHistory` | pkg/xds/server/reconcile.go:53-58 | Over any stretch of a run the record of stored snapshots is only added to, and has every snapshot that was ever current. |
| `VersionHistory.SameVersionSameResources` | pkg/xds/server/reconcile.go:73-79 | A version of a type that is current at two moments of a run, for any two nodes, stands for the same resources both times. |
| `XdsProofs.NextKeepsInv` | pkg/xds/server/reconcile.go:33-60 | Every step of the xDS server, of streams, cache or reconcilers, keeps: every response waiting or sent has its slot's type and carries the resources its version stands for, restricted to the names requested. |
| `XdsTheorems.RunKeepsInv` | pkg/xds/server/server.go:137-344 | That holds in every reachable state. |
| `XdsTheorems.WatchedIsFresh` | pkg/core/xds/context.go:18-20 | An open watch of the xDS server whose node has a snapshot asks with the snapshot's version, and whatever the stream was ever sent as that version are the requested ones of the resources the snapshot has now. |
| `XdsTheorems.QuietSlotIsFresh` | pkg/xds/server/server.go:298-342 | A quiet slot of the xDS server has such a watch if and only if `CreateWatch` did not decline its request and no `SetSnapshot` since declined to answer it while removing its watch, and the node was not cleared. |
| `XdsWitnesses.DeclinedAtOnce` | pkg/util/xds/cache.go:233-249 | A run of reconciler and stream in which `CreateWatch` neither answers a request nor leaves a watch: the slot waits with an old version and nothing will wake it. |
| `XdsWitnesses.DiscardedLater` | pkg/util/xds/cache.go:146-161 | The same with a request that comes first and whose watch `SetSnapshot` removes without an answer. |
| `VersionHistory.NextKeepsInv` | pkg/xds/server/reconcile.go:53-58 | Getting, versioning and storing as separate steps keep the meaning of every version handed out. |
| `VersionHistory.AssignedMeans` | pkg/xds/server/reconcile.go:64-79 | A version is carried over only together with its resources; otherwise it is new. |
| `ReconcileTheorems.VersionKeptIffUnchanged` | pkg/xds/server/reconcile.go:50-79 | Whatever others do between generating, reading, choosing and storing: a reconciler stores what it generated, for every type under the version it read exactly if the resources are the same, otherwise under one that is new. |
| `ReconcileTheorems.StorePushesChangesOnly` | pkg/util/xds/cache.go:145-161 | If the node still has the snapshot that was read, the store removes exactly the watches of types whose resources changed; if none did, no channel, watch, version or resource changes. |
| `PushTheorems.XdsPushesChangesOnly` | pkg/xds/server/reconcile.go:42-62 | So on every run of the xDS server reconciling without a change pushes nothing to any Envoy. |
| `PushTheorems.ClearLeavesNothing` | pkg/xds/server/reconcile.go:33-38 | `Clear` stores a snapshot without resources and versions; exactly the watches that ask with the empty version are left. |
| `PushTheorems.MadsPushesChangesOnly` | pkg/mads/reconcile/reconciler.go:29-41 | The same on every run of MADS. |
| `MadsTheorems.EndToEndFreshness` | pkg/mads/reconcile/reconciler.go:29-41 | In every interleaving of reconcilers, clients, connections and server loops, also within a request, if a watch is open and its node has a snapshot, its client has been sent the version it asks with together with exactly the resources of the current snapshot. |
| `MadsTheorems.NoChangeIsLost` | pkg/mads/client/client.go:77-135 | Whenever nothing is in flight on a stream, its server loop is idle and its client has replied, what the client accepted last is the current snapshot. |
| `MadsWitnesses.BusyStreamsMayBeBehind` | pkg/mads/server/mads.go:191-195 | Why the loop has to be idle: a run in which a snapshot is stored between the cancel function and `CreateWatch` of a client's request, after which nothing is in flight or waits to be sent and the client has not accepted the current version. |
| `MadsTheorems.RunKeepsInv` | pkg/mads/server/components.go:34-64 | The system invariant holds in every reachable state. |
| `MadsProofs.QuietClientIsUpToDate` | pkg/mads/server/mads.go:147-198 | The same for one state: the client of a quiet stream with an idle loop holds the current version and resources. |
| `MadsProofs.NextKeepsInv` | pkg/mads/server/mads.go:97-199 | Every step of client, connection, server or reconciler, each with at most one cache call, keeps the system invariant. |
| `MadsClient.Stream.RequestAssignments` | pkg/mads/client/client.go:77-87 | Refines the first request of the client model. |
| `MadsClient.Stream.Ack` | pkg/mads/client/client.go:89-103 | Refines ACK: version and nonce of the latest response, which becomes the accepted one. |
| `MadsClient.Stream.Nack` | pkg/mads/client/client.go:105-118 | Refines NACK: the accepted version with the latest nonce. |
| `MadsClient.Stream.WaitForAssignments` | pkg/mads/client/client.go:120-135 | Refines receiving a response. |
| `MadsClient.Reconcile` | pkg/mads/reconcile/reconciler.go:29-41 | Whatever other reconcilers store between its read and its write, it stores exactly what was generated, under the version it read exactly if that stood for the same resources, and answers the watches that are behind by then. |
| `AccessLogParser.Parse` | pkg/envoy/accesslog/format_parser.go:43-85 | The loop terminates on every string and computes the specified parse, errors included. |
| `AccessLogOperators.TokensAre` | pkg/envoy/accesslog/format_parser.go:12 | What the regular expression of tokens asks of command, arguments and limit. |
| `AccessLogOperators.ParsesPieceByPiece` | pkg/envoy/accesslog/format_parser.go:55-84 | Text up to the next `%` is one span, a token one operator, and the first token that is no valid operator decides about the error. |
| `AccessLogOperators.NoTokenIsAnError` | pkg/envoy/accesslog/format_parser.go:62-66 | A `%` at which no token of the regular expression stands is an error. |
| `AccessLogOperators.TokenIsFound` | pkg/envoy/accesslog/format_parser.go:12 | A token at the start of a string is found, and there is only one. |
| `AccessLogOperators.RejectedTokens` | pkg/envoy/accesslog/format_parser.go:94-218 | Exactly which tokens are not valid operators, command by command. |
| `AccessLogOperators.AcceptedTokens` | pkg/envoy/accesslog/format_parser.go:94-218 | What an accepted token stands for: the header names before and after the question mark in small letters, the path between colons, the key, the time format, the field or placeholder, and the limit. |
| `AccessLogOperators.NewlineDirectives` | pkg/envoy/accesslog/format_parser.go:16 | The newline check of time formats is the search for the code's regular expression. |
| `AccessLogRoundTrip.ParsePrintParse` | pkg/envoy/accesslog/format.go:88-95 | For every accepted string, parsing what is printed gives the same fragments again. |
| `AccessLogRoundTrip.PrintedParses` | pkg/envoy/accesslog/format.go:88-95 | Every canonical format is the parse of what it prints. |
| `AccessLogRoundTrip.PrintIsNormalForm` | pkg/envoy/accesslog/format.go:88-95 | Two accepted strings print alike exactly if they parse alike. |
| `AccessLogShortest.RenderingIsShortest` | pkg/envoy/accesslog/header_formatter.go:60-76 | Rendering an accepted string never makes it longer, so the rendering is a shortest way to write its format. |
| `AccessLogRoundTrip.ParsedIsCanonical` | pkg/envoy/accesslog/format_parser.go:94-202 | Parsed fragments are canonical: text is non-empty, free of `%` and never adjacent; operators have what they can print. |
| `AccessLogRoundTrip.ScanIsLossless` | pkg/envoy/accesslog/format_parser.go:43-85 | An accepted string is the concatenation of raw tokens and text spans, one per fragment, each of which is what its piece says. |
| `AccessLogRoundTrip.MatchFinds` | pkg/envoy/accesslog/format_parser.go:12 | In front of any text, the scanner finds exactly the token that was printed. |
| `AccessLogSyntax.MatchIsRaw` | pkg/envoy/accesslog/format_parser.go:87-92 | A matched token is well formed and its raw text is a prefix of the input. |
| `AccessLogRoundTrip.TokenParses` | pkg/envoy/accesslog/format_parser.go:94-142 | The operator parser rebuilds every canonical fragment from its token. |
| `AccessLogRoundTrip.NoArgumentsMeansNoParens` | pkg/envoy/accesslog/format_parser.go:220-224 | The length test of the code recognises exactly the tokens without parentheses. |
| `AccessLogFormat.FormatLogEntry` | pkg/envoy/accesslog/format.go:19-47 | The line, or the first error; a dash for each empty value. |
| `AccessLogValues.MainHeaderWins` | pkg/envoy/accesslog/header_formatter.go:31-45 | A named header that is present is shown whatever the alternative is; the alternative exactly if the main one is not named or absent; of either the longest beginning within the limit, or all of it. |
| `AccessLogValues.RequestHeaderSources` | pkg/envoy/accesslog/request_header_operator.go:88-112 | Which property of the request answers for each of the nine special names, empty ones as absent; all other names are looked up among the headers. |
| `AccessLogValues.OriginalPathFirst` | pkg/xds/envoy/listeners/http_access_log_configurer.go:11 | The operator of the default format shows the original path if there is one, else the path. |
| `AccessLogValues.OtherFragments` | pkg/envoy/accesslog/start_time_operator.go:29-40 | Text and placeholders stand for themselves, time and fields for what the entry has. |
| `AccessLogValues.LinesConcatenate` | pkg/envoy/accesslog/format.go:19-32 | The line of a format is the lines of its parts one after the other, and the first error wins. |
| `AccessLogValues.OneFragment` | pkg/envoy/accesslog/format.go:26-28 | A fragment without a value is shown as a dash. |
| `AccessLogValues.LineOrError` | pkg/envoy/accesslog/format.go:19-32 | There is a line exactly if no start time and no field of the format fails. |
| `AccessLogFormat.Interpolate` | pkg/envoy/accesslog/format.go:67-86 | Replaces exactly the placeholders, in place. |
| `AccessLogFormat.MergeFormatsAlike` | pkg/envoy/accesslog/format.go:19-47 | Merging neighbouring text changes no line unless an empty span is dropped. |
| `AccessLogInterpolation.NoPlaceholderLeft` | pkg/envoy/accesslog/format.go:70-90 | Each placeholder becomes the text it is bound to, or empty text if it is not bound; everything else stays. |
| `AccessLogInterpolation.ReparsesToItself` | pkg/envoy/accesslog/format.go:67-95 | The rendered string parses back to the interpolated format exactly if no placeholder is bound to text with a `%`. |
| `AccessLogInterpolation.InterpolationPreservesMeaning` | pkg/envoy/accesslog/format.go:19-86 | On every HTTP and TCP entry the re-parsed format fails exactly when the interpolated one does, and gives the same line exactly if no placeholder is bound to the empty string. |
| `AccessLogInterpolation.EmptyBindingLosesDash` | pkg/envoy/accesslog/format.go:19-86 | A placeholder bound to the empty string is formatted as a dash before and as nothing after re-parsing. |
| `AccessLogInterpolation.PercentBreaksRendering` | pkg/envoy/accesslog/placeholder_fragment.go:40-43 | A placeholder bound to `%` renders as a string that is rejected. |
| `AccessLogCapture.CaptureIsAdequate` | pkg/envoy/accesslog/format.go:49-56 | Restricting any entry to the configured headers and trailers leaves the formatted line unchanged. |
| `AccessLogCapture.CaptureIsMinimal` | pkg/envoy/accesslog/request_header_operator.go:59-64 | Nothing is captured unless it was listed before or some fragment reads it and it is not always captured. |
| `AccessLogCapture.FilterStateIsConfigured` | pkg/envoy/accesslog/filter_state_operator.go:30-55 | Exactly the filter state objects that the format names are asked for, beside those asked for before. |
| `AccessLogNeed.EveryCapturedHeaderMatters` | pkg/envoy/accesslog/format.go:49-56 | For every header or trailer a format adds to the configuration there is an entry whose line changes if that one is not captured. |
| `AccessLogCapture.ListsStayClean` | pkg/envoy/accesslog/util.go:24-31 | Configured lists extend the given ones and stay free of duplicates. |
| `AccessLogCapture.AppendedIsUnion` | pkg/envoy/accesslog/util.go:24-31 | The union, with the old list as a prefix. |
| `AccessLogCapture.AppendToSet` | pkg/envoy/accesslog/util.go:24-31 | The loop computes that union. |
| `AccessLogCapture.Contains` | pkg/envoy/accesslog/util.go:6-13 | Decides membership. |
| `AccessLogCapture.FilterNotCaptured` | pkg/envoy/accesslog/util.go:15-22 | Keeps exactly the headers that are not always captured, in order. |
| `AccessLogCapture.LogConfig.ConfigureHttpLog` | pkg/envoy/accesslog/format.go:49-56 | The configuration object ends up with what all fragments need, added in order. |
| `TagSelectors.MatchesTags` | api/mesh/v1alpha1/dataplane_helpers.go:288-302 | Decides matching, in whatever order the tags are visited. |
| `TagSelectors.ComputeRank` | api/mesh/v1alpha1/dataplane_helpers.go:304-313 | Counts exact and wildcard tags. |
| `TagSelectors.CompareIsTotalOrder` | api/mesh/v1alpha1/dataplane_helpers.go:424-431 | Zero only between equal ranks, antisymmetric, transitive. |
| `TagSelectors.MoreTagsRankHigher` | api/mesh/v1alpha1/dataplane_helpers.go:424-431 | Of two selectors or pairs the one with more tags ranks higher, and of those with equally many the one with more exact tags. |
| `TagSelectors.CombinePreservesOrder` | api/mesh/v1alpha1/dataplane_helpers.go:417-422 | Combining with the same rank preserves the order. |
| `TagSelectors.RefinesMeansMoreSpecific` | api/mesh/v1alpha1/dataplane_helpers.go:288-302 | A selector refines another exactly if the other matches everything it matches. |
| `TagSelectors.RefinesRanksHigher` | api/mesh/v1alpha1/dataplane_helpers.go:304-313 | A refining selector ranks at least as high, and equally high exactly if it is the same. |
| `Names.SortSorts` | pkg/core/policy/connection_matcher.go:181-187 | Sorting by name sorts. |
| `Names.LessMeans` | pkg/core/policy/connection_matcher.go:185-187 | A name comes before its continuations; otherwise the first different character decides. |
| `Names.SortPermutes` | pkg/core/policy/connection_matcher.go:64 | Sorting by name permutes. |
| `Names.SortIsStable` | pkg/core/policy/connection_matcher.go:64 | Policies of the same name keep their order. |
| `PolicyModel.SelectionIsMaximum` | pkg/core/policy/connection_matcher.go:63-139 | With distinct names a policy is selected if and only if it applies and beats every other that applies, by rank, creation time, then name. For connections, inbounds and dataplanes alike. |
| `PolicySpecificity.SelectedConnection` | pkg/core/policy/connection_matcher.go:63-142 | The selected policy has a source that matches an inbound or the gateway of the dataplane, and a destination that names at most the service, which together have the most tags of all matching pairs of all policies, then the most exact ones; then the later policy wins, then the name that comes first. |
| `PolicySpecificity.SomeConnection` | pkg/core/policy/connection_matcher.go:63-142 | Some policy is selected exactly if one has such a matching pair. |
| `PolicySpecificity.SelectedSingle` | pkg/core/policy/dataplane_matcher.go:16-51 | The same for the policy of an inbound or of a dataplane, where selectors match singly and a policy without selectors counts as one with an empty one. |
| `PolicyModel.SelectedIsBest` | pkg/core/policy/connection_matcher.go:98-139 | Nothing is selected exactly if nothing applies. |
| `PolicyModel.SelectionIgnoresOrder` | pkg/core/policy/connection_matcher.go:64 | With distinct names the order in which policies are given does not matter. |
| `PolicyModel.SelectionIsFirstMax` | pkg/core/policy/connection_matcher.go:105-131 | Without distinct names: a maximum by rank and creation time, the first in sorted order. |
| `PolicyModel.ConnectionRankIsBestPair` | pkg/core/policy/connection_matcher.go:75-90 | A policy ranks at least as high as any matching pair of a source and a destination. |
| `PolicyModel.ConnectionRankIsOfAPair` | pkg/core/policy/connection_matcher.go:112-129 | Its rank is that of some matching pair. |
| `PolicyModel.WhenPoliciesApply` | pkg/core/policy/dataplane_matcher.go:10-50 | A policy applies to an inbound if a destination matches; to a dataplane if it has no selectors, an empty one, or one that matches. |
| `PolicyMatcher.ServiceIterator.Next` | pkg/core/policy/connection_matcher.go:21-55 | Hands out the services in order, then the pass-through service once, then ends for good. |
| `PolicyMatcher.SortInPlace` | pkg/core/policy/connection_matcher.go:64 | The array ends up stably sorted by name, by swaps of neighbours. |
| `PolicyMatcher.BestSource` | pkg/core/policy/connection_matcher.go:76-90 | The rank of the most specific matching source, or none. |
| `PolicyMatcher.TwoStages` | pkg/core/policy/connection_matcher.go:75-131 | Filtering by source first and by destination then considers the same candidates in the same order as scanning all policies. |
| `PolicyMatcher.SelectConnectionPolicies` | pkg/core/policy/connection_matcher.go:63-139 | Each service given is mapped to the policy selected for it and is absent exactly if there is none, whatever the order and repetition of services. |
| `PolicyMatcher.SelectForInbound` | pkg/core/policy/connection_matcher.go:154-174 | For one inbound: a nil dereference exactly if the first match has rank zero, otherwise the selected policy. |
| `InboundMatcher.InboundInterfaces` | api/mesh/v1alpha1/dataplane_helpers.go:187-200 | All interfaces in order, or the first error. |
| `InboundMatcher.SelectInboundConnectionPolicies` | pkg/core/policy/connection_matcher.go:144-179 | Fails exactly on an invalid interface, crashes exactly if some inbound makes it crash, and otherwise gives the map described by the next three rows. |
| `InboundMatcher.DecidedIsPresent` | pkg/core/policy/connection_matcher.go:173-175 | The interface of an inbound with a policy has that policy, unless a later inbound on the same interface has one. |
| `InboundMatcher.PresentIsDecided` | pkg/core/policy/connection_matcher.go:173-175 | No other interface is in the map. |
| `InboundMatcher.DistinctInterfaces` | pkg/core/policy/connection_matcher.go:153-175 | With distinct interfaces every inbound gets the policy selected for its own tags. |
| `InboundMatcher.CrashCondition` | pkg/core/policy/connection_matcher.go:156-171 | The call crashes on an inbound exactly if the first selector that matches it is empty. |
| `InboundMatcher.EmptySelectorCrashes` | pkg/core/policy/connection_matcher.go:156-171 | One policy whose first destination selector is empty makes the call crash, whatever the inbound. |
| `InboundMatcher.NonEmptySelectorsNeverCrash` | pkg/core/resources/apis/mesh/traffic_permission_validator.go:18-26 | If no policy of the caller's list has an empty destination selector, which validation demands, no inbound makes the call crash. |
| `DataplaneMatcher.SelectDataplanePolicy` | pkg/core/policy/dataplane_matcher.go:16-50 | The selected policy; no nil policy is ever asked for its creation time, although empty selectors and empty lists count as rank zero. |
| `DataplaneMatcher.ConsiderSelectors` | pkg/core/policy/dataplane_matcher.go:25-48 | One policy: the best candidate so far is kept, whichever of the three ways it matches. |
| `Topology.BuildRouteMap` | pkg/xds/topology/router.go:52-85 | Exactly the outbound services have a route: the selected one, or the implicit one to the service itself. |
| `OutboundRouting.ImplicitRouteGoesToTheService` | pkg/xds/topology/router.go:65-81 | By the implicit route everything goes to one cluster named like the service, whose endpoints are exactly the inbounds of that service. |
| `Topology.AddSelector` | pkg/core/xds/types.go:77-84 | Adds a selector unless it is there. |
| `Topology.BuildDestinationMap` | pkg/xds/topology/router.go:89-108 | The selectors of all destinations of all routes, grouped by service. |
| `Topology.DestinationsMean` | pkg/xds/topology/router.go:89-115 | The destinations of a service are exactly the selectors with that service among the destinations of the routes of the outbounds and, for outbounds without a route, the service itself. |
| `Topology.GroupedMeans` | pkg/xds/topology/router.go:89-108 | Grouping neither loses nor invents a selector, and no group has one twice. |
| `Topology.BuildEndpointMap` | pkg/xds/topology/outbound.go:26-63 | The index of all inbounds of the mesh that match a selector of their service. |
| `Topology.Filter` | pkg/core/xds/types.go:86-94 | The matching endpoints, in order. |
| `Topology.IndexAgrees` | pkg/xds/topology/outbound.go:26-63 | The index filtered by one of its selectors is, in order and multiplicity, the direct scan of the inbounds of that service. |
| `Topology.PipelineAgrees` | pkg/xds/server/components.go:110-123 | For every destination of a route, what the generator looks up equals the direct scan of the mesh exactly unless its service is the wildcard and a matching inbound has another. |
| `Topology.WildcardServiceFindsNothing` | pkg/xds/topology/outbound.go:33-37 | An input of the failing family: a wildcard destination finds no endpoint where the scan finds one. |
| `ResourceSets.ResourceSet.Contains` | pkg/core/xds/resource.go:59-66 | Whether a resource of that type and name was added. |
| `ResourceSets.ResourceSet.Add` | pkg/core/xds/resource.go:68-77 | Adds in order what is not there yet and keeps index and list in agreement. |
| `ResourceSets.AddAllKeepsDistinct` | pkg/core/xds/resource.go:68-77 | No two resources share type and name. |
| `ResourceSets.FirstWins` | pkg/core/xds/resource.go:68-77 | Under each type and name the set has the resource that was added first. |
| `ClusterNames.GetDestinationClusterName` | pkg/xds/envoy/names/resource_names.go:39-52 | The service, and in braces the sorted pairs of all other tags, each as often as it occurs. |
| `ClusterNames.NamesTellApart` | pkg/xds/envoy/names/resource_names.go:39-52 | Two destinations whose tags have no punctuation get the same name only if they have the same tags. |
| `ClusterNames.ValidatedIsClean` | pkg/core/resources/apis/mesh/validators.go:33-71 | Tags with the characters that validation allows have no punctuation of names. |
| `ClusterNames.NamesMayCollide` | pkg/xds/envoy/names/resource_names.go:39-52 | Without validation two destinations with different tags can have the same name. |
| `ClusterNames.NameIsUnique` | pkg/xds/envoy/names/resource_names.go:47-51 | The name of any destination does not depend on the order in which its tags are visited. |
| `ClusterNames.NameWithTags` | pkg/xds/envoy/names/resource_names.go:42-57 | The name for a service with two more tags, letter by letter. |
| `OutboundTheorems.CodeNamesDistinguish` | pkg/xds/generator/proxy_template.go:248-252 | With the names of the code, clusters of a proxy whose tags have no punctuation have the same name only if they have the same tags. |
| `OutboundGenerator.DetermineClusters` | pkg/xds/generator/proxy_template.go:238-255 | The clusters of all destinations of non-zero weight, or the first destination without a service. |
| `OutboundGenerator.GenerateEds` | pkg/xds/generator/proxy_template.go:257-277 | A cluster and a load assignment per cluster info, and all their endpoints. |
| `Protocols.GetCommonProtocol` | pkg/xds/generator/protocol.go:27-50 | Unknown exactly if one of the two is, HTTP exactly if both are. |
| `Protocols.InferServiceProtocol` | pkg/xds/generator/protocol.go:53-63 | HTTP exactly if there are endpoints and all speak it; unknown exactly if there is none or one of unknown protocol. |
| `Protocols.HttpTags` | pkg/core/resources/apis/mesh/dataplane_helpers.go:21-30 | Which values of the protocol tag mean HTTP, in any case of letters. |
| `OutboundGenerator.Generate` | pkg/xds/generator/proxy_template.go:155-236 | The set of all that is emitted for the outbounds, or an error that says what is wrong with the first bad one; succeeds exactly if all are routable. |
| `OutboundTheorems.GeneratedIsClosed` | pkg/xds/generator/proxy_template.go:155-300 | No two resources share type and name, and every cluster, load assignment and route referred to is there. |
| `OutboundRouting.EveryOutboundIsRouted` | pkg/xds/generator/proxy_template.go:167-300 | For every outbound there is the listener of the first one with its interface. It leads to a route configuration that is there exactly if all endpoints of the route's destinations speak HTTP, otherwise straight to clusters; either way to exactly the destinations of the route that have a weight, in order and with their weights. |
| `OutboundRouting.ListenerNamesDiffer` | pkg/xds/envoy/names/resource_names.go:19-21 | Listeners of different interfaces have different names. |
| `OutboundTheorems.PairsMatch` | pkg/xds/generator/proxy_template.go:257-277 | The cluster and the load assignment kept under a name come from the same destination, the first of that name. |
| `OutboundTheorems.EveryDestinationGetsItsEndpoints` | pkg/xds/generator/proxy_template.go:238-277 | Every weighted destination has a load assignment under its name, which lists the matching inbounds of its service for the first destination of that name (this one, if names tell destinations apart), and a cluster with the health check of that service. |
| `OutboundTheorems.ValidatedDestinationsGetTheirEndpoints` | pkg/core/resources/apis/mesh/traffic_route_validator.go:29-41 | With the names of the code and validated tags, the load assignment of every weighted destination lists exactly the matching inbounds of the mesh, exactly unless its service is the wildcard and a matching inbound has another. |
| `StatusModel.CountersCountEvents` | pkg/xds/server/dataplane_status_tracker.go:130-161 | Every counter is the number of matching events. |
| `StatusSteps.CountersCountCallbacks` | pkg/xds/server/dataplane_status_tracker.go:130-164 | At every moment of every run each counter is the number of callbacks of its kind and type: responses sent, requests with a nonce and without or with an error. |
| `StatusSteps.SubscriptionsReflectCallbacks` | pkg/xds/server/dataplane_status_tracker.go:64-145 | A subscription has the instance and time of the opening, the times of the latest counted callback and of the closing, and the dataplane that the first request with a node named. |
| `StatusModel.TotalsAreSums` | api/mesh/v1alpha1/dataplane_insight_helpers.go:77-105 | Each total is the sum of the four counters plus the events of other types. |
| `StatusModel.CountersAreConserved` | pkg/xds/server/dataplane_status_tracker.go:108-164 | At every moment of every run totals count all events, and equal the sum of the four exactly if there was none of another type. |
| `StatusModel.OtherTypesBreakTheSum` | pkg/xds/server/dataplane_status_tracker.go:148-164 | A run with one response of another type, after which the total is one and the four counters are zero. |
| `StatusModel.UpdatedMeans` | api/mesh/v1alpha1/dataplane_insight_helpers.go:38-48 | An update leaves other subscriptions alone and leaves exactly one with its id. |
| `StatusModel.NextKeepsInv` | pkg/xds/server/dataplane_status_sink.go:39-97 | Every step of a tracker or of one of several racing flushers keeps the invariant. |
| `StatusModel.FinalFlush` | pkg/xds/server/dataplane_status_sink.go:59-67 | Once a flusher is done, the stored insight holds exactly one subscription with the stream's id, equal to the final state with its disconnect time, if and only if that state was the last one stored successfully. |
| `StatusModel.NothingIsLost` | pkg/xds/server/dataplane_status_sink.go:80-97 | At every moment the store has, under each id, exactly what its flusher stored last, once, whatever other flushers of the same dataplane do. |
| `StatusModel.FinalStateStays` | pkg/xds/server/dataplane_status_sink.go:45-67 | A final state that was stored stays stored. |
| `StatusFinalFlush.FinalStateIsStored` | pkg/xds/server/dataplane_status_sink.go:45-67 | Over the steps of a run: the final state is stored if and only if nothing was left to flush, or the final read and write did not fail and no other write for the dataplane was accepted in between. |
| `StatusFinalFlush.AcceptedMeansUndisturbed` | pkg/xds/server/dataplane_status_sink.go:80-97 | A write is accepted exactly if nobody wrote for the dataplane since the insight was read. |
| `StatusFinalFlush.DisconnectTimeLost` | pkg/xds/server/dataplane_status_sink.go:59-67 | A run of two streams of one dataplane in which the disconnect time of the first is never stored. |
| `StatusTracker.Tracker.OnStreamOpen` | pkg/xds/server/dataplane_status_tracker.go:64-85 | Adds a new stream state for the stream. |
| `StatusTracker.Tracker.OnStreamClosed` | pkg/xds/server/dataplane_status_tracker.go:88-106 | Forgets the stream, sets its disconnect time, closes its stop channel, which is open. |
| `StatusTracker.Tracker.OnStreamRequest` | pkg/xds/server/dataplane_status_tracker.go:110-145 | Refines the request step; starts the flusher exactly when the dataplane becomes known. |
| `StatusTracker.Tracker.OnStreamResponse` | pkg/xds/server/dataplane_status_tracker.go:148-164 | Refines the response step. |
| `StatusTracker.GetSubscription` | api/mesh/v1alpha1/dataplane_insight_helpers.go:29-36 | The first position with that id, or -1. |
| `StatusTracker.UpdateSubscription` | api/mesh/v1alpha1/dataplane_insight_helpers.go:38-48 | Replaces the first with that id, or appends. |
| `StatusTracker.InsightStore.Upsert` | pkg/xds/server/dataplane_status_sink.go:80-97 | Whatever others leave in the store between its read and its write, it succeeds exactly if the store does not fail and the insight is still the one that was read, and then updates it. |
| `StatusTracker.InsightSink.Flush` | pkg/xds/server/dataplane_status_sink.go:45-57 | Stores a changed state, under the same interference, and remembers it exactly if that succeeded. |

## Left out

- gRPC and HTTP servers, TLS, kumactl, the injector, the GUI, bootstrap templates: plumbing.
- A used-up channel and cancel function stay in the code's variables until they are overwritten a few statements later; the model forgets them at once.
- The cache of go-control-plane, which the xDS server uses, is modelled by `pkg/util/xds/cache.go`, a slightly modified copy of it.
- Protobuf marshalling and its errors: resources are values compared by equality, and a response carries its resources as a map by name, so their order in the message is not modelled.
- Node hashing happens before a request reaches the model; a node is its hash.
- The 64-bit counters (watch ids, nonces, statistics) do not wrap around.
- Stream callbacks that return errors, and the empty request, are the step that leaves the loop.
- A client whose send or receive fails has lost its connection; a server whose send fails leaves its loop. Both are followed by the steps that end a stream.
- `ClearSnapshot` is a step of the cache, stream and xDS models but not of the MADS system, which never calls it.
- UUIDs are assumed fresh and non-empty; that `Consistent` never fails in MADS is assumed too.
- `ToLower` is modelled on ASCII only, and format strings as sequences of characters instead of bytes.
- InterpolationPreservesMeaning: for a placeholder bound to text with a `%` only the parsed fragments are compared (`ReparsesToItself`); such text may render as any operator, so there is no useful condition for equal lines.
- Rendering of simple fields and of times: the outcome per entry is a parameter, so cipher suites, response flags and time layouts are not modelled.
- `ConfigureTcpLog` and the string builders of single operators would only add easy members; the printers are functions.
- SortInPlace: sorts by inserting; the library inserts within blocks and merges them, which gives the same array.
- Reading an inbound or outbound interface from its fields or its legacy text form: the outcome is part of the model's inbound or a parameter.
- Listing resources from the store before selection, and health checks, logs, tracing, fault injection and permissions, which use the same selection.
- The name of a cluster is a parameter function, because it is put together in the order of a Go map; `ClusterNames` says what it is.
- Errors of the Envoy resource builders, and what is in a resource besides the names and weights it refers to, its endpoints and its health check.
- Inbound, transparent-proxy and Prometheus generators, and templates: no cross references beyond one cluster each.
- Deletion of insights, and a store that fails after having written.
- Clocks are parameters; proxy ids are parsed before a request reaches the tracker.
- SDS server, `cachedManager`, validation: simpler, or their guarantee lives in libraries that are not part of this model.

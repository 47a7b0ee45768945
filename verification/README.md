# venus-edge: a verified model

venus-edge is an edge platform. A master stores the DNS, TLS and HTTP configuration of hostnames and replicates
every change to agents; the agents answer DNS queries and terminate or pass on TLS and HTTP connections from what
they hold. This project models its three delicate parts and proves what they are for.

**Replication.** The master persists a change, appends it to a write-ahead log of segment files, and broadcasts it
to its subscribers. The log is compacted: an append marks the previous entry of the same raw key as overlapped, and
a backlog holds the entries that are still on top. An agent subscribes at its cursor, receives the backlog (RECOVER
messages) and then live changes (NORMAL messages), applies each one and saves its version in a sparse log of its own.

- `WalLog` is the flat log: the append, the backward search, the links between entries of one key, the backlog.
- `Segments` and `FileWals` are the segment files. Class `FileWAL` is proved equal to the flat log, also where a
  write fails or the process stops between two segment writes.
- `ChangeStores`, `WalManagers`, `Following`, `Followers` and `Coordinators` are the store, the manager, the
  follower's loops, and the fan-out to subscriber channels, as classes proved against functions.
- `Protocol` is the whole system as a state machine over steps: create an object, write part of it, append, fail (with
  the log torn or not), broadcast, restart, subscribe, open the log, load one item, register, send, receive, save, stop,
  disconnect. Its steps are made of the functions the classes are proved against: `Appended` and `Mark` for the log
  file, `Entry` for a loaded item, `Decide` and `ApplyError` for a received message. `ProtocolBasics` holds what every
  run keeps, `ProtocolAgreement` the safety theorem, path by path, `ProtocolConvergence` compaction and what a
  reconnect does, `ProtocolOrigin` where messages come from, `ProtocolShape` the shape of queues, the possible errors
  and connected agents, `ProtocolSafety` exactly which states, agents and steps are safe, `ProtocolLimits` what
  overlapping publishes leave behind, and `ProtocolReached` runs that reach the cases set apart. `ProtocolFollower` ties
  the state machine's agent to the follower loop the class is proved against, `ProtocolChannels` its queues to the
  coordinator's channels.

The log compacts on raw hostnames while both stores file bytes under a sanitised, hashed name. That name is an
arbitrary function of the raw key here, so the theorems need no injectivity.

**TLS server names.** `ClientHellos` is the index-driven parser, proved equal to a reading by suffixes.
`HelloGrammar` is a grammar with an encoder: the parser accepts exactly the encodings of its trees. `TlsStandard` writes
the ClientHellos of RFC 8446 and RFC 6066 byte by byte, sharing nothing with the parser, and `WellFormedHellos` proves
that they are read. `PeekConns` is the connection that records what the lookup reads and
replays it, over a network that delivers any number of bytes per read and may fail at any read.

**Routing data.** `HttpRoutes` builds and decodes HTTP routes, `HttpLookups` matches requests, `AcmeSolvers` and
`AcmeRuns` are the HTTP-01 solver and its runs, `Names` and `ZoneSelection` choose the most specific zone, and
`DnsZones` writes zones with per-type indexes and looks records up through them.

Five findings are stated as theorems, each with a run that reaches it.

- Persisting and appending share no lock. A publish may start while others of its store path are in flight exactly when
  they write the same bytes (`ProtocolSafety.CreateSafeIff`); otherwise agents that reconnect can end apart for good, at
  the same version (`ProtocolLimits.OverlappingPublishesDiverge`). A failed append and a restart in the middle of a
  publish have their exact conditions too (`FailSafeIff`, `RestartSafeIff`).
- An append that stops between its two segment files leaves the overlapped entry marked. That entry is missing from
  every backlog until its key is appended again (`ProtocolBasics.MissingIffTorn`, `ProtocolReached.TornIsReached`).
- The master's store truncates an object before it writes it, and a backlog is read meanwhile. A change read while its
  object is empty ends the agent's session in an error that is not retried (`ProtocolOrigin.UnappliableIffReadEmpty`,
  `ProtocolReached.EmptyIsReached`).
- A subscription's handler removes whoever is registered under its key. Where an agent reconnects before the handler of its
  first connection returns, the new subscription is taken out, its channel stays open and no broadcast reaches it
  (`Coordinators.Coordinator.Cleanup`, `Overtaken`): the agent stays stale however much is published, until it disconnects
  by itself (`ProtocolShape.OrphanStaysStale`, `ProtocolReached.OrphanIsReached`).
- HTTP-01 tokens of one hostname that differ in letter case only share a state file, and then cleaning up one removes
  the other's challenge (`AcmeRuns.SharedFileLosesChallenge`); tokens are case-sensitive.

## Model

| member | source | states |
|---|---|---|
| WalLog.MarkKeepsSound | operator/replication/coordinator.go:256-284 | marking an entry overlapped, the first half of an append, keeps indexes increasing and at most one on-top entry per key, and does not change the latest index |
| WalLog.AppendedKeepsSound | operator/replication/coordinator.go:238-323 | an append past the latest index, with or without a gap, keeps the log sound and makes its index the latest |
| WalLog.AppendedKeepsExact | operator/replication/coordinator.go:256-323 | an append keeps: the newest entry of every key is on top, no other is, and every entry points at the previous entry of its key |
| WalLog.OnTopIsNewest | operator/replication/coordinator.go:256-284 | the backward search finds a key's on-top entry exactly when the key was ever appended, and it is the key's greatest index |
| WalLog.ChainVisitsKey | operator/replication/coordinator.go:277-277 | following lastAffectIndex from a key's newest entry terminates and visits every entry of that key, each once and newest first, and nothing else |
| WalLog.FollowStep | operator/replication/coordinator.go:311-319 | lastAffectIndex leads strictly backwards |
| WalLog.OnTopCountIsDistinctKeys | operator/replication/coordinator.go:256-323 | the number of on-top entries is the number of distinct keys ever appended |
| WalLog.LogOfDense | operator/replication/coordinator.go:205-218 | appending n keys gives indexes 1 to n in order, and an exact log |
| WalLog.SinceOfShape | operator/replication/coordinator.go:346-390 | a backlog is ascending and holds only on-top entries past the version, with the bytes stored now |
| WalLog.SinceOfComplete | operator/replication/coordinator.go:346-390 | every on-top entry past the version whose bytes are stored is in the backlog |
| Segments.SegmentBounded | operator/replication/coordinator.go:565-570 | no segment is empty or holds more than 1000 entries |
| Segments.ConcatUpdate | operator/replication/coordinator.go:334-342 | rewriting one segment changes exactly its stretch of the flat log |
| Segments.LatestInTop | operator/replication/coordinator.go:445-466 | the last entry of the highest segment carries the greatest index of all |
| Segments.ItemInItsSegment | operator/replication/coordinator.go:565-570 | every entry is stored in segment (index - 1) / 1000 + 1 |
| Segments.NotOverlapSumIsDistinctKeys | operator/replication/coordinator.go:278-323 | the segments' notOverlap counters add up to the number of distinct keys |
| Segments.DenseSegmentsFull | operator/replication/coordinator.go:565-570 | with indexes 1, 2, 3, ... every segment below the highest holds exactly 1000 entries |
| FileWals.MarkedSegmentOk | operator/replication/coordinator.go:278-281 | the guard on notOverlap never blocks the decrement |
| FileWals.MarkedDirIsMark | operator/replication/coordinator.go:256-284 | marking in its segment the entry found is marking the flat log at the flat position |
| FileWals.GrownDirIsAppend | operator/replication/coordinator.go:286-323 | growing the target segment appends to the flat log, whether the segment is new or not |
| FileWals.FileWAL.LatestLocked | operator/replication/coordinator.go:445-466 | answers the greatest index of the flat log, 0 when it is empty |
| FileWals.FileWAL.FindOverlap | operator/replication/coordinator.go:256-284 | the nested search over segments and entries stops where the backward search of the flat log does |
| FileWals.FileWAL.WriteSegments | operator/replication/coordinator.go:334-342 | the loop over dirty segments writes both exactly when both files can be written; else the overlapped entry's segment is written exactly when its own file can be |
| FileWals.FileWAL.AppendLocked | operator/replication/coordinator.go:238-344 | succeeds exactly when both files can be written, and then it is the flat append; else the old entry is left marked exactly when its own file can be written, and the log is valid in either case |
| FileWals.FileWAL.Append | operator/replication/coordinator.go:205-218 | the n-th append of a log gets version n; exactness is kept; a failure does not move the latest index |
| FileWals.FileWAL.AppendApplied | operator/replication/coordinator.go:220-236 | a version the log covers changes nothing; any other is appended at its own index, gaps allowed |
| FileWals.FileWAL.Since | operator/replication/coordinator.go:346-390 | the segment-by-segment read is the backlog of the flat log |
| ChangeStores.ChangeStore.Persist | operator/agent/agent.go:76-85 | the bytes are filed under the canonical path of the key; an unspecified type is refused and changes nothing |
| ChangeStores.LoadedIsLast | operator/agent/agent.go:76-93 | after any changes, a load gives the bytes of the last change filed under its path, be it under another raw key, and what was there before if there is none |
| ChangeStores.ChangeStore.Apply | operator/agent/agent.go:53-74 | validates the change, then persists it; an invalid change alters nothing |
| WalManagers.WALManager.Publish | operator/replication/wal_manager.go:32-45 | persists, then appends the next version; a refused persist changes nothing, a failed append leaves the store ahead and the log as AppendLocked says |
| WalManagers.WALManager.ReplaySince | operator/replication/wal_manager.go:51-53 | the backlog of the flat log with the stored bytes |
| WalManagers.WALManager.Load | operator/replication/wal_manager.go:59-61 | the cursor is the latest index of the log |
| WalManagers.WALManager.SaveApplied | operator/replication/wal_manager.go:67-70 | the cursor becomes the change's version unless the log already covers it |
| Following.SessionsInStep | operator/replication/follower.go:71-160 | for arbitrary streams over any number of sessions, applied versions strictly increase, everything applied outside the RECOVER tier is the previous cursor plus one, and the cursor is the last applied version |
| Followers.Follower.ApplyAndSave | operator/replication/follower.go:146-155 | a change past the cursor is applied and its version saved; the save is never skipped |
| Followers.Follower.Consume | operator/replication/follower.go:106-160 | the loop does what the session function says, and at its head the stored cursor equals `current` |
| Following.EmptyIsSkipped | operator/replication/follower.go:113-115 | an empty message changes nothing, wherever it arrives |
| Following.LateRecoverStops | operator/replication/follower.go:117-126 | after any message outside the RECOVER tier, a RECOVER message ends the session in an error and is not applied |
| Following.BacklogSession | operator/replication/follower.go:128-156 | a session that brings an ascending, applicable RECOVER backlog past the cursor applies all of it, leaves the cursor at its last version and ends in the error of the next receive |
| Followers.Follower.Run | operator/replication/follower.go:71-101 | returns no error exactly when every session, each from the cursor the one before left, ends in the end of the stream, a future version, a gap or a late RECOVER, and then it has gone through all of them; else it stops at the first that ends otherwise, with that session's error, which is a failed receive, apply or save or an empty version |
| Followers.Follower.RunOverGap | operator/replication/follower.go:92-97 | a session that ends in a gap, followed by one that brings the backlog, leaves the agent at the last version of the backlog with all of it applied |
| Coordinators.Subscriber.Offer | operator/replication/coordinator.go:158-166 | the non-blocking send: a channel with room holds the change last and stays open, a full one keeps what it holds and is closed |
| Coordinators.Coordinator.Broadcast | operator/replication/coordinator.go:150-167 | every registered channel with room gets the change last, every full one is closed and loses its registration, and no other channel is touched |
| Coordinators.Coordinator.Publish | operator/replication/coordinator.go:62-77 | refuses an empty body or hostname without effect; success, exactly when the log can be written, persists, appends the next version and puts that change last in every channel with room, while a full channel keeps what it holds, is closed and loses its registration; after a failure no channel has changed |
| Coordinators.Coordinator.PublishAll | operator/replication/coordinator.go:62-77 | over any number of publishes, some of which may fail, a registered channel that nobody reads and that has room holds what it held, followed by the published changes in order under consecutive versions |
| Coordinators.Coordinator.SubscribeThenPublish | operator/replication/coordinator.go:62-104 | up to 32 publishes after a subscription leave its channel open, holding the backlog of the agent's version followed by the published changes |
| Coordinators.Coordinator.Subscribe | operator/replication/coordinator.go:79-111 | refused exactly when the agent is ahead; else a channel with the whole backlog and room for 32 more is registered, which orphans the channel registered under the key before, if any, and no other |
| Coordinators.Coordinator.Deliver | operator/replication/coordinator.go:121-136 | the handler's loop sends what its channel holds, in order, until it is empty or a send fails, whose message is gone |
| Coordinators.Coordinator.Cleanup | operator/replication/coordinator.go:113-118 | removes whoever is registered under the key, which orphans another subscription's channel exactly when another is registered there; panics exactly when the own channel was already closed by an eviction |
| Coordinators.Coordinator.Overtaken | operator/replication/coordinator.go:102-118 | an agent that reconnects before its first handler returns ends with its new channel open and out of reach of broadcasts |
| ProtocolBasics.EveryRunIsBasic | operator/replication/coordinator.go:79-167 | in every run, with no discipline and with appends torn between segments: cursors do not pass the log, streams are ascending backlogs followed by NORMAL messages, and everything that was on top when the log was opened and is past the cursor is still to come |
| ProtocolBasics.BacklogKeeps | operator/replication/coordinator.go:346-390 | a backlog read at one moment is a valid stream from its cursor, with the bytes stored at that moment |
| ProtocolBasics.LoadKeeps | operator/replication/coordinator.go:364-387 | reading one more item, whatever was stored meanwhile, keeps: every entry that was on top is read or still to be read |
| ProtocolBasics.MissingIffTorn | operator/replication/coordinator.go:334-390 | an entry that is the last of its raw key is missing from the backlog of a follower below it exactly when it is torn: marked by an append that got no further, its key not appended since |
| ProtocolBasics.FailedAppends | operator/replication/coordinator.go:334-342 | the failed appends of the state machine are those of the segment files: torn exactly when the overlapped entry lies in another segment |
| ProtocolOrigin.LoadedEmptyIff | operator/replication/coordinator.go:364-387 | reading an item on top and past the cursor gives one message, which cannot be applied exactly when the item's object is empty at that moment |
| ProtocolOrigin.EveryRecoverWasRead | operator/replication/coordinator.go:364-387 | in every run each RECOVER message on its way to an agent was read for it at some earlier step |
| ProtocolOrigin.UnappliableIffReadEmpty | operator/agent/agent.go:53-74 | the next message cannot be applied exactly when it was read at a step at which its object was empty |
| ProtocolChannels.PublishIsBroadcast | operator/replication/coordinator.go:150-167 | a publish of the class is the Broadcast step of the state machine on every session's queue; one that fails is none |
| ProtocolChannels.SubscribeIsRegister | operator/replication/coordinator.go:79-106 | a subscription of the class is refused where the Subscribe step is, and its channel is the queue of the Register step |
| ProtocolChannels.TakeIsSend | operator/replication/coordinator.go:126-134 | a receive from a channel is the Send step |
| ProtocolChannels.CleanupIsUnregister | operator/replication/coordinator.go:113-118 | a handler that returns is the Unregister step of the other session under its key, and no step of any other |
| ProtocolOrigin.RestartForgetsBroadcasts | operator/replication/coordinator.go:62-77 | a version that was not broadcast before a restart of the master never is: whatever steps follow, every NORMAL message on its way is past the log at the restart |
| ProtocolFollower.ReceiveAndSaveIsStep | operator/replication/follower.go:106-160 | receiving and saving one message in the state machine is one step of the follower loop, on the same cursor, recovery flag and message, with the same error |
| ProtocolFollower.StopIsHalfReceive | operator/agent/agent.go:76-85 | an agent that stops while it replaces a file has lost that object and nothing else: storing the message's bytes would complete its receive, and its cursor is where it was |
| ProtocolFollower.StreamIsConsumed | operator/replication/follower.go:106-160 | over a whole stream the state machine's agent ends where the consume loop ends: same cursor, store and error |
| ProtocolAgreement.NothingSkipped | operator/replication/follower.go:117-144 | when a change is applied, no newest version of a store path between the cursor and that change that was not torn is passed over |
| ProtocolAgreement.WriteKeepsPath | operator/master/objectstore/localfs.go:18-30 | one write of part of an object changes nothing about whether its path settles |
| ProtocolAgreement.AppendIff | operator/replication/wal_manager.go:41-44 | nor does appending a publish whose object is written |
| ProtocolAgreement.EmptyOnlyWhileWritten | operator/master/objectstore/localfs.go:18-30 | in a disciplined run an object is empty only while a publish of it is in flight |
| ProtocolAgreement.SerialRunsAgree | operator/replication/wal_manager.go:32-45 | the inductive form for one path: every step of a run in which its overlapping publishes write the same bytes and none is lost keeps agreement of the store, the log file, the streams and the agents |
| ProtocolAgreement.AgreementBelowCursor | operator/replication/follower.go:106-160 | a store path whose newest version is at most an agent's cursor holds there that version's bytes, or part of those of a publish of the path in flight; with none in flight, exactly that version's, as at the master |
| ProtocolConvergence.CompactionPreservesMeaning | operator/replication/coordinator.go:346-390 | for every log and version, replaying up to the version and applying the backlog past it gives the store of the whole log |
| ProtocolConvergence.DrainedCursor | operator/replication/coordinator.go:84-107 | an agent whose backlog is fully delivered has its cursor at the snapshot's latest version or past it, unless that version was torn |
| ProtocolConvergence.DeliveredBacklogConverges | operator/replication/follower.go:71-100 | in a disciplined run with nothing in flight, an agent whose backlog is fully delivered, with nothing published since, holds exactly the master's store |
| ProtocolConvergence.CatchUpIs | operator/replication/follower.go:106-160 | what one fresh subscription does to an agent in any state: its store has the backlog applied, its cursor is the last of it |
| ProtocolConvergence.CatchUpLevelsIff | operator/replication/follower.go:71-160 | one reconnect levels every agent that is right up to its cursor exactly when the master stores what its log says and no path's newest version is torn |
| ProtocolConvergence.CatchUpConverges | operator/replication/follower.go:71-100 | after any disciplined run with nothing in flight, one reconnect with its backlog delivered brings an agent to the master's store, which is what the log says, and to the latest version |
| ProtocolShape.OrderedRunsAreShaped | operator/replication/coordinator.go:88-167 | with ordered broadcasts each session's NORMAL messages are the broadcasts from its registration on, without a hole |
| ProtocolShape.NoGapLater | operator/replication/follower.go:132-144 | a message leaves a gap exactly when it is a session's first NORMAL message and broadcasts past the cursor were out before the registration |
| ProtocolShape.OnlyFirstNormalLeavesGap | operator/replication/follower.go:117-149 | in no run does a session fail with a future version, a late RECOVER or an empty version; a change cannot be applied exactly when it was read at a step at which its object was empty; with ordered broadcasts a gap arises exactly as `NoGapLater` says |
| ProtocolShape.LiveBehindIff | operator/replication/coordinator.go:92-118 | a connected agent that received everything, registered or not, is behind the broadcasts exactly when it joined late - broadcasts past its snapshot were out at its registration and it received none since - or is cut off: it lost its registration and a version past its snapshot and past what it received went out |
| ProtocolShape.LiveLevelIff | operator/replication/coordinator.go:92-118 | in a disciplined run with ordered broadcasts and nothing in flight or waiting, such an agent holds the master's store at the latest version exactly when it neither joined late nor is cut off |
| ProtocolShape.EvictedLeaves | operator/replication/coordinator.go:125-130 | an evicted agent finds the end of its stream at its next receive |
| ProtocolShape.OrphanStaysStale | operator/replication/coordinator.go:113-118 | an orphaned agent stays exactly as it is through any steps of everybody, until it disconnects by itself or the master restarts |
| ProtocolSafety.SettlesIff | operator/replication/wal_manager.go:32-45 | a path settles - its publishes in flight write the same bytes and the object becomes those - exactly when every completion of what is in flight ends with the log's newest bytes stored |
| ProtocolSafety.SafeIff | operator/replication/wal_manager.go:32-45 | after every completion one reconnect levels every agent that is right up to its cursor, exactly when every path settles and every torn newest version has a successor in flight |
| ProtocolSafety.AgentSafeIff | operator/replication/follower.go:71-160 | with a safe master one agent ends level exactly when what it holds of the paths not in flight is right up to its cursor |
| ProtocolSafety.SerialRunsAreSafe | operator/replication/wal_manager.go:32-45 | every disciplined run ends in a safe state |
| ProtocolSafety.CreateSafeIff | operator/replication/wal_manager.go:41-44 | a publish may start exactly when those of its path in flight write the same bytes |
| ProtocolSafety.FailSafeIff | operator/replication/wal_manager.go:41-44 | a publish may give up, with the log torn or not, exactly when another of its path remains and mends the object, or the object holds the newest version's bytes and that version is not torn |
| ProtocolSafety.RestartSafeIff | operator/replication/wal_manager.go:41-44 | the master may stop exactly when every object being written holds its path's newest version, not torn |
| ProtocolSafety.OtherStepsAreSafe | operator/replication/wal_manager.go:41-44 | writes, appends and broadcasts are always safe |
| ProtocolLimits.OverlappingPublishesDiverge | operator/replication/wal_manager.go:41-44 | from every safe state, a publish that overlaps one of its path with other bytes can end with nothing in flight and agents apart at the latest version: those that had the newest bytes keep them, all others take what is stored |
| ProtocolLimits.OverlapIsReached | operator/replication/wal_manager.go:41-44 | that happens to the first two publishes of one name |
| ProtocolLimits.LateRegistrationMisses | operator/replication/coordinator.go:92-111 | the late registration of `LiveLevelIff` does occur |
| ProtocolLimits.GapAtFirstNormal | operator/replication/follower.go:132-144 | the version gap at a session's first NORMAL message does occur |
| ProtocolReached.EmptyIsReached | operator/master/objectstore/localfs.go:18-30 | an agent that subscribes between the creation of an object and its first write ends in the error that is not retried |
| ProtocolReached.TornIsReached | operator/replication/coordinator.go:334-342 | after 1000 versions a failed append of the first one's key leaves that version torn, the last of its key and in no backlog |
| ProtocolReached.OrphanIsReached | operator/replication/coordinator.go:113-118 | an agent whose registration is taken out is behind from the first publish on |
| ClientHellos.ParseServerNameExtension | ingress/engine_tls.go:335-357 | the index loop reads what the suffix recursion reads, on all bytes |
| ClientHellos.ParseExtensions | ingress/engine_tls.go:318-332 | the loop over the extension block reads what the suffix recursion reads |
| ClientHellos.ParseClientHello | ingress/engine_tls.go:263-333 | the whole parser computes the suffix reading, the same error for the same truncation, on all bytes |
| HelloGrammar.EncodedIsRead | ingress/engine_tls.go:263-357 | reading the encoding of any tree gives the tree's first host name in its first server_name extension, or nothing |
| HelloGrammar.ReadIsEncoded | ingress/engine_tls.go:263-357 | whatever the parser accepts is the encoding of a tree |
| HelloGrammar.ServerNameIffEncoded | ingress/engine_tls.go:263-357 | for all bytes, the parser answers a name exactly when the bytes encode a tree that carries it |
| WellFormedHellos.WellFormedIsRead | ingress/engine_tls.go:263-357 | every ClientHello that the standards' own encoder writes, whatever follows it in its record, is read as the first host name of its first server_name extension, or nothing |
| WellFormedHellos.FragmentRefused | ingress/engine_tls.go:268-271 | every proper prefix of a well-formed ClientHello is refused, so one split over records is |
| PeekConns.PeekConn.Read | ingress/engine_tls.go:209-224 | hands out the next unread bytes, the replayed ones first, and records them exactly while capturing |
| PeekConns.PeekConn.ResetReplay | ingress/engine_tls.go:226-231 | what was recorded is unread again, in front of the rest |
| PeekConns.PeekConn.ReadFull | ingress/engine_tls.go:233-252 | for every pattern of short reads: full, or an error and a prefix; no byte lost or reordered |
| PeekConns.PeekConn.ReadInSizes | ingress/engine_tls.go:209-224 | reads of any sizes return consecutive bytes of what was unread |
| PeekConns.ReadRecord | ingress/engine_tls.go:233-252 | the first record's body, or the error of the stream, or a failed read |
| PeekConns.ReadSni | ingress/engine_tls.go:233-261 | the answer is that of the whole stream unless a read fails first; after success the unread bytes are the stream from byte 0 |
| PeekConns.Copy | ingress/engine_tls.go:481-508 | if the backend takes everything, all that was read before a read failed is delivered, with nothing left to replay; else the backend got as much of the stream as it has room for |
| PeekConns.Passthrough | ingress/engine_tls.go:408-415 | a routed backend receives the client's own stream from its first byte, all that was read before a read failed or all it has room for, under the name the stream carries |
| PeekConns.WellFormedClientsAreRouted | ingress/engine_tls.go:233-333 | every client whose first record, as the standards write it, opens with a well-formed ClientHello is routed by the name it asked for |
| PeekConns.RoutedIffHello | ingress/engine_tls.go:233-333 | a client is routed by a name exactly when its stream opens with a handshake record whose content encodes a tree that carries the name |
| HttpRoutes.PolicyRoundTrip | ingress/builder/httproute.go:141-227 | decoding a built policy gives its normal form, which builds to the same message and is its own normal form |
| HttpRoutes.RouteRoundTrip | ingress/builder/httproute.go:61-112 | the same for a whole route: decode after build is the normal form, building it again is a fixpoint |
| HttpRoutes.RebuiltIffCoherent | ingress/builder/httproute.go:141-185 | a foreign message comes back unchanged from decoding and building exactly when its kind and union agree |
| HttpRoutes.BuildsIff | ingress/builder/httproute.go:277-323 | a policy builds exactly when it has a backend or fixed content, and a pathname of a known kind, or no pathname and a query whose keys and values all have a character that is no space, or neither and such a header |
| HttpRoutes.RefusalIs | ingress/builder/httproute.go:277-348 | a refusal names what is missing: content before selector, and of the items the first incomplete one, its key before its value |
| HttpRoutes.HTTPPolicyBuilder.Build | ingress/builder/httproute.go:277-323 | the fields build to a message exactly when they meet that condition; else the first error in the code's order |
| HttpRoutes.HTTPPolicyBuilder.From | ingress/builder/httproute.go:141-227 | decodes every supported message, keeping the old kind where there is no pathname |
| HttpRoutes.SetKeyValues | ingress/builder/httproute.go:327-348 | all items, or the first item with a blank key or value |
| HttpRoutes.HTTPRouteBuilder.Build | ingress/builder/httproute.go:92-112 | succeeds exactly when the hostname has a character that is no space and every policy is there and meets that condition; else names the first that does not |
| HttpRoutes.HTTPRouteBuilder.From | ingress/builder/httproute.go:61-85 | decodes every policy in order into fresh builders, or fails |
| HttpLookups.MatchKeyValues | ingress/engine_http.go:253-273 | true exactly when every item's value is what the request has under its key |
| HttpLookups.BuiltTakes | ingress/engine_http.go:223-248 | the verdict on a built message is whether the policy's kept selector, told from its builder, takes the request |
| HttpLookups.MatchPolicy | ingress/engine_http.go:223-296 | the engine's branches answer, for every policy that builds to the message, whether that policy takes the request |
| HttpLookups.LookupBackend | ingress/engine_http.go:170-207 | the answer of the first policy that does not pass the request on, in the zone chosen for the host |
| HttpLookups.PrefixTakes | ingress/engine_http.go:275-296 | a prefix policy takes exactly the paths that go on from its prefix, which is what is cut off them |
| HttpLookups.FirstDecides | ingress/engine_http.go:181-204 | if all policies before the i-th pass, the i-th decides; if all pass there is no route |
| HttpLookups.RoutedAsBuilt | ingress/engine_http.go:170-207 | on a built route the engine serves the first policy, as its builder tells it, whose kept selector takes the request; a bad expression met first is a failure |
| HttpLookups.NormalFormRoutesAlike | ingress/builder/httproute.go:291-322 | a policy and its normal form take the same requests |
| AcmeSolvers.WithoutOne | operator/master/acme/http01.go:120-125 | an edit leaves a policy out exactly when its kind is exact, its path is /.well-known/acme-challenge/ followed by the token, and it has fixed content |
| AcmeSolvers.WithoutConcat | operator/master/acme/http01.go:33-38 | an edit keeps of a route what it keeps of its parts, in order |
| AcmeSolvers.Filtered | operator/master/acme/http01.go:33-38 | the loop keeps, in order, every policy but those of exact kind at the token's challenge path with fixed content |
| AcmeSolvers.Controller.ReadHTTPRouteOrEmpty | operator/master/acme/http01.go:127-136 | the stored route decoded into fresh builders, an empty one if there is none, an error if it does not decode |
| AcmeSolvers.Controller.PublishHTTPRoute | operator/master/acme_adapter.go:35-42 | stores the built zone, or changes nothing where it does not build or is refused |
| AcmeSolvers.HTTP01Solver.Present | operator/master/acme/http01.go:15-61 | the new zones and state files for every outcome of the publish and of the save |
| AcmeSolvers.HTTP01Solver.Cleanup | operator/master/acme/http01.go:63-106 | the new zones and state files for every outcome; without a state file it succeeds and changes nothing |
| AcmeRuns.EditIsReadBack | operator/master/acme/http01.go:24-44 | an edit that reaches the store is decoded as it was made: no policy is changed by being rebuilt |
| AcmeRuns.UserPoliciesStay | operator/master/acme/http01.go:15-106 | over any run, with failures half way and colliding state files, the route is at most one challenge per token followed by the user's policies unchanged and in order |
| AcmeRuns.OutstandingAreInRoute | operator/master/acme/http01.go:15-106 | over any run of finished operations with separate state files, the challenges in the route are exactly the outstanding ones, and so are the state files |
| AcmeRuns.OutstandingIff | operator/master/acme/http01.go:15-106 | a challenge is outstanding exactly when the last finished operation on its token presented it |
| AcmeRuns.ChallengesAnswerFirst | ingress/engine_http.go:181-204 | each challenge is served at its token's path despite any catch-all, and all other requests are answered by the user's policies |
| AcmeRuns.OutstandingAreAnswered | operator/master/acme/http01.go:24-44 | after any such run the stored zone answers every outstanding token with its content |
| AcmeRuns.SharedFileLosesChallenge | operator/master/acme/acme.go:129-137 | two tokens with one state file: cleaning up the first removes the second's challenge, reports success, and the first's stays for good |
| AcmeRuns.InRouteIffOwnFiles | operator/master/acme/acme.go:94-137 | the route holds the outstanding challenges after every run exactly when no two of the tokens share a state file |
| AcmeRuns.FileNameIsSafe | operator/master/acme/acme.go:129-137 | no state file's name is empty or holds a separator or a capital letter, whatever the hostname and token |
| AcmeRuns.SharedFileIffSameLetters | operator/master/acme/acme.go:129-137 | two base64url tokens of one hostname share a state file exactly when they differ in letter case only |
| Names.JoinSplit | ingress/zone.go:110-114 | joining the labels a name was split into gives the name |
| Names.SplitJoin | ingress/zone.go:110-114 | splitting joined labels gives the labels |
| Names.LabelSuffixIsSuffix | DNS/zone.go:76-80 | every label suffix of a name is one of the joins of its last labels |
| ZoneSelection.DnsCandidateZones | DNS/zone.go:71-82 | the label suffixes of the normalised name, longest first |
| ZoneSelection.IngressCandidateZones | ingress/zone.go:104-116 | the name, then the wildcards of its proper label suffixes, longest first |
| ZoneSelection.LookupForQuestion | DNS/dns.go:268-290 | the first candidate whose zone is stored |
| ZoneSelection.FindZone | ingress/engine_http.go:209-221 | the first candidate whose zone is stored; the TLS finder at ingress/engine_tls.go:390-406 has the same loop |
| ZoneSelection.DnsChoiceIsMostSpecific | DNS/dns.go:268-290 | the zone opened is the stored one with the longest label suffix of the name; none exactly when no suffix is stored |
| ZoneSelection.IngressChoiceIsMostSpecific | ingress/engine_tls.go:390-406 | the exact zone if stored, else the stored wildcard zone with the longest proper suffix; none exactly when neither exists |
| Names.NormalizedIs | DNS/dns.go:545-547 | a normalised name has no capitals; a name in lower case without outer spaces that ends in a dot is its own normal form exactly when that dot is not escaped |
| Names.SanitizeTwice | ingress/zone.go:202-204 | sanitising a sanitised name changes it exactly when trimming its dots laid a space bare |
| ZoneSelection.WrittenZoneIsFound | ingress/zone.go:96-116 | the engines look a name's own zone up where it was written exactly when trimming the dots of the name lays no space bare, and then it wins over every wildcard |
| Names.SanitizeNormalized | DNS/dns.go:545-547 | a normalised name sanitises as the name itself exactly when the name has no space before its last dot |
| ZoneSelection.WrittenZoneIsOpened | DNS/zone.go:67-82 | the DNS server looks a name's own zone up where it was written exactly when the name has no space before its last dot, and then it wins over every shorter suffix |
| ZoneSelection.NoNameNoZone | DNS/zone.go:73-75 | a name of nothing but spaces and dots has no zone |
| DnsZones.WriteTo | DNS/zone.go:108-136 | nothing is written if a builder refuses; else the records in order and, per type, the positions of its builders |
| DnsZones.SetZoneIndexes | DNS/zone.go:138-162 | each of the eight lists gets its own type's positions |
| DnsZones.PositionsPartition | DNS/zone.go:121-128 | the lists ascend and partition the positions: each is in its own type's list, once, and in no other |
| DnsZones.RecordMatchesName | DNS/dns.go:347-366 | the label loop compares all labels but the first |
| DnsZones.WildcardIff | DNS/dns.go:347-366 | a normalised name matches another exactly when they are equal, or the first is a wildcard and they differ in one leading label |
| DnsZones.ReaderHandler.LoadIndexes | DNS/dns.go:368-403 | the eight lists are under query types 1, 28, 5, 15, 2, 12, 6 and 16, and no other query type has one |
| DnsZones.ReaderHandler.Lookup | DNS/dns.go:292-324 | the matching records at the listed positions, or an error at the first position out of range |
| DnsZones.ThroughFails | DNS/dns.go:300-310 | a lookup fails exactly when a listed position is out of range, and names the first that is |
| DnsZones.ScanOne | DNS/dns.go:405-529 | a record is answered exactly when its type has the number asked for and its name matches, with all names in it normalised |
| DnsZones.ScanConcat | DNS/dns.go:292-324 | the answers of two runs of records are those of the first, followed by those of the second |
| DnsZones.LookupAgreesWithScan | DNS/dns.go:292-324 | on every written zone a lookup of any name and type answers what the plain scan answers, in order, and never fails |
| DnsZones.WriteThenLookup | DNS/zone.go:108-136 | writing any records and looking up any name and type gives the plain scan of those records |

## Left out

- gRPC, sockets, TLS handshakes, HTTP proxying, listeners, command lines, logs and the web interface: input and output.
- Cap'n Proto and protobuf encodings: a message is a value, decoding inverts encoding, and a decoding error other than an unknown union cannot happen. List lengths are taken to fit the message format.
- SHA-256, regular expressions and certificates: the hash only as an arbitrary function (replication, ACME) or as injective on sanitised names (zone selection), the matcher as a parameter.
- Clocks: timestamps of segments and challenge states, and retry delays. Cancelled contexts.
- The cluster name and the event action of a log entry, which are constants.
- FileWals.FileWAL.Append: asks that the latest index is below 2^64 - 1, so the wrap-around of the index is not modelled; the protocol stops appending before it, and the theorems of `ProtocolSafety` ask for room for what is in flight.
- FileWals.FileWAL.AppendLocked: reading a segment never fails and each segment's write (temporary file and rename) is atomic; writes may fail or never happen.
- WalLog.SinceOfComplete: an entry whose bytes cannot be loaded is passed over, as in the code; in the protocol every appended key has an object, which may be empty or half written, and reading it does not fail.
- ChangeStores.ChangeStore.Persist: is one step here; the protocol splits the master's into the creation of the object and any number of writes, and the agent's at the moment its old file is removed.
- ProtocolAgreement.AgreementBelowCursor: a discipline per path, under which a publish in flight is lost only where another with the same bytes remains. `ProtocolSafety` says exactly when less will do; a publish lost after agents may have read half of its object leaves those agents wrong even where the master is right, which `AgentSafeIff` covers.
- ProtocolShape.OrderedRunsAreShaped: runs whose broadcasts go out in version order, which the code does not enforce between concurrent publishers.
- Followers.Follower.Consume: the agent's own log and files can always be written here; the protocol has a stop between applying and saving, and in the middle of replacing a file, as steps.
- Coordinators.Coordinator.Overtaken: runs the two handlers one after the other; in the protocol another handler's cleanup is the Unregister step, which may come at any time.
- Followers.Follower.Run: a failed subscription call is a session without messages that ends in a retried error. In the protocol an agent whose session ended in an error that is not retried may subscribe again, as a new process.
- Coordinators.Coordinator.Cleanup: whether the deferred close of an evicted channel panics is a result; the crash that follows is the protocol's master restart.
- Locks: each method of a class runs alone, and interleavings are steps of `Protocol`, which lets appends happen while a backlog is read although the code's log lock forbids it.
- PeekConns.PeekConn.ReadFull: a connection that returns no bytes and no error forever is not modelled, since each read uses up a step of a finite script.
- HttpLookups.LookupBackend: query and header lookups are functions of the request. Pruning and joining of paths after the match, and raw access on port 80, are left out.
- AcmeRuns.UserPoliciesStay: operations on one hostname, one after the other; two at once read and publish without a lock.
- AcmeRuns.SharedFileIffSameLetters: letters outside ASCII keep their case in this model, which host names and tokens do not contain.
- DnsZones.ReaderHandler.Lookup: types outside the eight do not occur. Addresses, hosts and texts are carried along with names normalised; sorting of answers by client distance, forwarding and the authority section are left out.
- TLS routes, certificate issuing, the TLS policy inside a zone, and the static policy finder: easy members beside the ones above.

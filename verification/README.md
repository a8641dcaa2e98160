# Router center: a Dafny model

The router center keeps a registry of route ids. Clients hold a TCP connection,
register by heartbeat, mirror the registry in a local route table, and relay
RPCs to each other through the server. This project models that logic and
proves what it promises, over every input and every run. It also shows, with
concrete runs, the places where the obvious promise does not hold.

Check it with `dafny verify dfyconfig.toml`.

## How the model is laid out

| file | models |
|---|---|
| `WireCodec.dfy` | the message payload: encoder, cursor decoder, the extra-prefix test |
| `Framing.dfy` | length-prefixed frames over a stream of short reads, both readers |
| `SessionRegistry.dfy` | the server's session objects, upsert, removal, sweep, staleness |
| `RouteTable.dfy` | the client's node map and the direct clients cached on it |
| `MirrorProtocol.dfy` | server, connections, queues and client tables as one step system, and its invariant |
| `MirrorSteps.dfy` | what its steps do, told from outside: heartbeat, teardown, catching up |
| `MirrorTheorems.dfy` | mirror coherence, ownership, and three counterexamples |
| `Futures.dfy` | futures keyed by uid, and the uid generator |
| `Stubs.dfy` | running a method, rendering its result, the relay's two handlers |
| `RelayCalls.dfy` | relayed calls end to end over a lossy network, and its invariant |
| `RelayOutcomes.dfy` | what calls come back with, that they can go well, how often they run |
| `TrafficStats.dfy`, `Ranking.dfy` | sliding windows, totals, the ranking page |
| `LogRotation.dfy` | the rotating log files |
| `Reconnect.dfy` | the client's reconnect worker and its backoff |
| `Basics.dfy` | options, bytes, joined sequences, decimal text, string order |

Code that works by changing fields is a class whose methods are proved equal to
a step function on values; the theorems over whole runs are about those step
functions. Locks, goroutines and timers become atomic steps, queues and clock
parameters. The system models (`MirrorProtocol`, `RelayCalls`, `Reconnect`,
`SessionRegistry.Timed`) each define an action type, when an action is enabled
and what it does; a run is any sequence of enabled actions from the initial
state, of any length and with any interleaving.

### Assumptions

- A remote address names one connection and is not used again. Writes to a
  connection that is still open are delivered in order; once it breaks or is
  closed they are lost. In `MirrorProtocol` this is the `open` flag.
- A heartbeat is three steps (admit, snapshot, write) as in the source, which
  holds no lock across them. Coherence is therefore stated up to the `stale`
  ids of a connection: what the client's table held when it connected, until a
  reply or a removal names the id, and what a reply brought after its removal
  was broadcast. A stale entry may be out of date; it need not be.
  `SpotlessMirrorCoherence` has no exception: it holds for every connection
  whose own client started empty and whose own replies were not overtaken by a
  removal they list, whatever all the others do. Replies written in one step
  with their snapshot are never overtaken (`AtomicMirrorCoherence`).
- Each connection of the model has its own copy of its client's table, which it
  takes over when it is made. In the source a process has one table, so a notice
  still unread on its old connection could touch the table of the new one; the
  model assumes that the old connection's notices are not applied any more once
  the new one is made.
- Deleting sessions and broadcasting their removal are two steps. A connection
  registered under several ids gets one notice instead of several equal ones.
- JSON marshal and unmarshal are inverse on the messages, so messages are
  structured values.
- A handler is a function from its arguments to a value, an error or a panic. In
  `RelayCalls` the handlers of a process can be replaced between any two steps,
  which stands for registering and for whatever state a handler keeps.
- The relay network forges nothing and there is one process per route id.
- A sweep takes at most `delay` from its first lock to its second, and sweeps
  start at most 60 s after the last one ended; `delay` is any number.
- Strings in the codec are byte sequences; elsewhere they are Dafny strings,
  compared character by character.

### Where the source and its own description differ

- `DecodeRouteMessagePayload` has a comment saying that it skips an extra length
  prefix. It compares with the remaining length minus four after the four bytes
  are consumed, so a true extra prefix is not skipped
  (`WireCodec.ExtraPrefixIsRejected`); the one that is skipped is four short
  (`WireCodec.SkippedPrefix`).
- The log line of `UpsertRouteNode` says that it closes a changed client. It
  drops the client from the cache without closing it; the model says nothing
  about closing.

## Model

| member | source | states |
|---|---|---|
| MirrorTheorems.MirrorCoherence | internal/VirtualRouterServer/server.go:169-209 | In every reachable state, every entry an open connection's client will hold after draining its queue is the server's current node for that id, or its removal is deleted but not yet broadcast, or the id is stale (left from before the connection, or put back by a late reply). |
| MirrorTheorems.SpotlessMirrorCoherence | internal/VirtualRouterServer/server.go:169-209 | For every connection whose own client started empty and none of whose replies was overtaken by the broadcast of an id it lists, and whatever all other connections do, every entry is current or its removal is still to be broadcast. |
| MirrorTheorems.RunIsSpotless | internal/VirtualRouterServer/session_manager.go:103-122 | Such a connection never has a stale id. |
| MirrorTheorems.AtomicMirrorCoherence | internal/VirtualRouterServer/session_manager.go:66-142 | The same for a connection whose replies are each written right after their snapshot. |
| MirrorTheorems.ReplyBringsEverything | internal/VirtualRouterServer/server.go:198-208 | After an atomic reply the drained table has every live node with its address; anything else in it waits for a broadcast or was stale before and is not registered. |
| MirrorTheorems.ReplyIsExactExactly | internal/VirtualRouterClient/client.go:202-228 | Draining an atomic reply makes the client's node map equal to the server's list if and only if the table, drained before the reply, held no id the server does not have; pending broadcasts make no difference. |
| MirrorTheorems.FreshReplyIsExact | internal/VirtualRouterClient/client.go:202-228 | That is so when no broadcast is pending and only live ids are stale. |
| MirrorTheorems.SpotlessReplyIsExact | internal/VirtualRouterClient/client.go:202-228 | For a client that started empty and whose replies were not overtaken, no broadcast pending is enough for that. |
| MirrorTheorems.CachedClientsPointAtTheServersNodes | internal/VirtualRouterClient/route_table.go:84-98 | A direct client cached by a caught-up client has the host and port the server has registered for its id, unless that id is stale or about to be broadcast as removed. |
| MirrorTheorems.SessionKeepsOwner | internal/VirtualRouterServer/session_manager.go:66-81 | No step changes the connection or the address of an id that is registered before and after it. |
| MirrorTheorems.OwnerChangesThroughGap | internal/VirtualRouterServer/session_manager.go:66-101 | If an id has different owners or addresses at two points of a run, there is a state strictly between them in which nobody holds it. |
| MirrorTheorems.SessionsKeyedByTheirId | internal/VirtualRouterServer/session_manager.go:66-81 | In every reachable state each session is stored under its own router id. |
| MirrorTheorems.ConflictIsRefused | internal/VirtualRouterServer/server.go:182-196 | A heartbeat for an id held by another connection leaves the registry, the pending batches and all other connections as they were and closes the one it came from. |
| MirrorTheorems.TeardownEvictsExactly | internal/VirtualRouterServer/server.go:119-125 | Tearing a connection down removes another connection's session if and only if the last id it named is registered to that other connection. |
| MirrorSteps.TeardownRemovesExactly | internal/VirtualRouterServer/server.go:119-125 | Tearing a connection down takes a session out of the registry if and only if it is that of the last non-empty id the connection named, whoever holds it; the removal is then queued for broadcast, every other session stays as it was, and the connection is closed. |
| MirrorSteps.RemembersLastNamed | internal/VirtualRouterServer/server.go:141-143 | The id the handler remembers is the last non-empty one that any message of the connection named, refused heartbeats included. |
| MirrorSteps.FreedByTeardown | internal/VirtualRouterServer/session_manager.go:66-101 | After a heartbeat for an id and the teardown of its connection, with no other id named in between, the next heartbeat for the id is admitted from whatever connection it comes. |
| MirrorSteps.BeatExactly | internal/VirtualRouterServer/server.go:169-209 | A heartbeat registers a free id as offered, refreshes its own session keeping the address, or is refused with a conflict notice and a closed connection; nothing else changes. |
| MirrorSteps.BreakOnlyCloses | internal/VirtualRouterServer/server.go:109-125 | A broken connection is closed; its session, its mirror and all other connections stay. |
| MirrorSteps.CatchesUp | internal/VirtualRouterClient/client.go:161-228 | Delivering what is under way takes a client's table to its mirror in as many steps as there are notices, and changes nothing else. |
| MirrorTheorems.RefusedDuplicateEvictsOwner | internal/VirtualRouterServer/server.go:141-143 | A run in which a refused duplicate's teardown removes the first owner's registration and closes its connection. |
| MirrorTheorems.LateReplyLeavesGhost | internal/VirtualRouterServer/server.go:198-208 | Any run about to answer a client while another node is registered extends by four steps so that the other node is a ghost at the client: listed, not registered, and with no removal of it still to be broadcast. |
| MirrorTheorems.ReconnectKeepsGhost | internal/VirtualRouterClient/client.go:202-212 | A client that connects with an entry for a node that is gone still lists it after registering and getting a full reply; it is then a ghost if and only if its removal was not waiting to be broadcast. |
| MirrorTheorems.GhostStaysUntilRegistered | internal/VirtualRouterServer/session_manager.go:103-122 | A ghost stays one through any replies, deliveries, removals, broadcasts and teardowns until a heartbeat names its id. |
| MirrorTheorems.ForgottenExactly | internal/VirtualRouterServer/session_manager.go:103-122 | An open, registered client can come to forget a node that is gone, without a heartbeat naming it again, if and only if its removal is still to be broadcast. |
| MirrorProtocol.StepKeeps | internal/VirtualRouterServer/session_manager.go:87-122 | Every step (admission, refusal, snapshot, reply, deletion, broadcast, teardown, break, delivery, lookup) keeps the coherence invariant of every connection. |
| MirrorProtocol.RunKeeps | internal/VirtualRouterServer/server.go:109-167 | The invariant holds in every state of every run. |
| MirrorProtocol.UpsertKeepsCurrent | internal/VirtualRouterServer/session_manager.go:70-80 | An upsert makes no mirror entry out of date and takes no connection off the registry: a live session's node never changes. |
| MirrorProtocol.DeleteKeeps | internal/VirtualRouterServer/session_manager.go:87-101 | Deleting sessions closes exactly their owners' connections, leaves every other session as it was, makes every deleted id wait for its broadcast, and keeps all open connections coherent. |
| MirrorProtocol.BroadcastKeeps | internal/VirtualRouterServer/session_manager.go:107-121 | Broadcasting a batch takes exactly its ids out of the drained table of every open connection that owns a session, leaves every other mirror as it was, and keeps all coherent although the batch is no longer pending. |
| MirrorProtocol.WriteReplyKeeps | internal/VirtualRouterServer/server.go:202-208 | A reply puts every node it lists into the drained table; a listed node is stale afterwards if and only if its removal was broadcast since the snapshot, and otherwise current or announced. |
| MirrorProtocol.DeliverKeepsMirror | internal/VirtualRouterClient/client.go:179-228 | Delivering the first notice leaves the drained node map unchanged. |
| SessionRegistry.RouterSessionManager.UpsertSession | internal/VirtualRouterServer/session_manager.go:66-81 | Refreshes the id's own connection without touching its address, refuses another connection without any change, registers a free id; the registered session is returned and no registered session is closed. |
| SessionRegistry.RouterSessionManager.RemoveSessions | internal/VirtualRouterServer/session_manager.go:87-101 | Exactly the listed ids that were registered leave the registry, each reported once and its session closed; all others are untouched. |
| SessionRegistry.RouterSessionManager.CollectOffline | internal/VirtualRouterServer/session_manager.go:53-59 | Lists exactly the ids silent for more than the timeout, and changes nothing. |
| SessionRegistry.RouterSessionManager.CheckHeartbeat | internal/VirtualRouterServer/session_manager.go:49-64 | With nothing between its two halves, removes and reports exactly the ids silent for more than the timeout. |
| SessionRegistry.RouterSessionManager.GetAllRouteNodeList | internal/VirtualRouterServer/session_manager.go:130-142 | Lists every live node exactly once with its registered address, in any order. |
| SessionRegistry.StalenessBound | internal/VirtualRouterServer/session_manager.go:42-64 | With sweeps starting at most 60 s after the last one ended and taking any `delay` between their two locks, every registered session was heard from within 90 s plus twice the delay; a sweep picks a session if and only if it is then silent for over 30 s. |
| SessionRegistry.StalenessBoundIsMet | internal/VirtualRouterServer/session_manager.go:42-64 | For every delay some run reaches that bound exactly. |
| SessionRegistry.PurgeTakesSilentExactly | internal/VirtualRouterServer/session_manager.go:49-64 | A purge takes out exactly what its sweep picked, whatever came between; if no more than 30 s did, a session it takes out is really silent for over 30 s if and only if no heartbeat for it was admitted since it was picked. |
| SessionRegistry.SweepCanRemoveAFreshSession | internal/VirtualRouterServer/session_manager.go:53-63 | Every run in which a sweep has picked a still registered session goes on so that the session is heard from and taken out at the same instant. |
| RouteTable.CacheCoherence | internal/VirtualRouterClient/route_table.go:55-98 | After any sequence of upserts, removals and lookups every cached direct client is for a known node, has that node's host and port, and was made for this client's own id. |
| RouteTable.PutAllAt | internal/VirtualRouterClient/route_table.go:55-70 | A list overwrites exactly the ids it mentions, with one of its own nodes, and leaves every other id as it was. |
| RouteTable.LastOneCounts | internal/VirtualRouterClient/route_table.go:55-70 | Where a list repeats an id, the last node of that id is what the table holds. |
| RouteTable.ClientKeptExactly | internal/VirtualRouterClient/route_table.go:55-70 | A cached direct client survives a list, unchanged, if and only if every mention of its node in the list says what is already known. |
| RouteTable.ClientRouteTable.UpsertRouteNode | internal/VirtualRouterClient/route_table.go:55-70 | The loop leaves the node map and the cache as the fold of the list does, for lists that repeat ids too. |
| RouteTable.ClientRouteTable.RemoveRouteNode | internal/VirtualRouterClient/route_table.go:72-82 | Exactly the listed ids leave both the node map and the cache. |
| RouteTable.ClientRouteTable.GetOrCreateRpcClient | internal/VirtualRouterClient/route_table.go:84-98 | Fails exactly when the id is neither cached nor known; otherwise returns what is then cached for it. |
| RelayCalls.RelayCorrelation | internal/rpc/relay_client.go:21-63 | Over every run with losses, a retry, repeated answers and changing handlers: when a call returns a value, at some earlier step its addressed node executed this very request, a handler was registered there for its packet id and returned on its arguments, and the value is the string returned, the JSON text of the object returned, or empty for nil; the request ran at most once per send attempt, at most twice. |
| RelayOutcomes.ReturnGivesInvocation | internal/rpc/future.go:37-46 | A call that returns gives its caller exactly what its future holds, value or error text, and that is what an earlier execution of this request by its addressee gave. |
| RelayOutcomes.ComesBackExactly | internal/rpc/relay_client.go:41-63 | A step ends a call if and only if it is the return with the future's content, the time-out with its text, giving up with the error of the first send, or a second send that fails with its own error. |
| RelayOutcomes.SendLeadsOn | internal/rpc/relay_client.go:45-56 | A first send that fails is followed by one retry, a send that does not fail by waiting on the future. |
| RelayOutcomes.CallCanReturn | internal/rpc/relay_client.go:41-63 | In every state, a call that may be made now to a live process can be sent, forwarded, executed, answered, received and returned, and then gives its caller what calling the method there gives. |
| RelayOutcomes.OnlyAddressedArrives | internal/VirtualRouterServer/server.go:211-241 | In every run, nothing goes to a node without an addressee, and no answer to the server's own debugger is forwarded. |
| RelayOutcomes.InstallTakesEffect | internal/rpc/stub_manager.go:88-101 | Requests run the handlers that are registered at their addressee at that moment. |
| RelayCalls.FutureHoldsInvocation | internal/rpc/relay_handlers.go:21-70 | What a call's future holds, value or error text, is what calling the method locally at the addressee gave at an earlier step at which the addressee executed this very request. |
| RelayCalls.LoggedRan | internal/rpc/stub_manager.go:88-101 | Every logged execution goes back to a step of its node that ran Invoke with the handlers registered at that moment on the request's packet id and arguments, and carries its outcome. |
| RelayCalls.CallCompletesOnce | internal/rpc/relay_handlers.go:50-70 | A call keeps its request, and what it returned and what its future holds once closed never change in the rest of the run. |
| RelayCalls.OnlyAskedForRuns | internal/rpc/relay_handlers.go:21-48 | Whatever ran, ran at its addressee, for a request some other process has made. |
| RelayCalls.RetryCanRunTwice | internal/rpc/relay_client.go:45-56 | Whatever handlers the callee has, there is a run in which a first send fails after its frame has left, the retry succeeds, and the request is executed twice. |
| RelayOutcomes.RunsExactly | internal/rpc/relay_client.go:41-63 | At any moment of any run, a request whose addressee is alive can come to n executions if and only if those made, its copies under way and its sends still to come add up to n; they never add up to more than two. |
| RelayCalls.StepKeeps | internal/VirtualRouterServer/server.go:211-241 | Every step of caller, server, network and callee keeps the link between calls, futures, messages under way and the execution log, and the bound on copies. |
| RelayCalls.NewUidIsNew | internal/rpc/relay_client.go:73-77 | The uid a call is given has never been used by its process, whatever the clock shows. |
| Futures.UidsDiffer | internal/rpc/relay_client.go:73-77 | Uids with different counter values differ as texts, even if the clock repeats or goes back. |
| Futures.NoChannelClosesTwice | internal/rpc/future.go:57-81 | After any interleaving of registrations and responses, no response closes a closed channel, even if uids repeat. |
| Futures.HoldsFirstAnswer | internal/rpc/future.go:57-81 | After any interleaving, a future holds the first response to its uid that came after its registration and before the next registration of that uid, and otherwise stays open; it waits in the map until one of these comes. |
| Futures.FuturesAddUp | internal/rpc/future.go:57-81 | Registered futures are those waiting, those completed and those overwritten while waiting, and no others. |
| Futures.RegisteredIsWaitingPlusCompleted | internal/rpc/future.go:57-81 | With generated uids nothing is overwritten: registered equals waiting plus completed, for any clock readings and any interleaving. |
| Futures.UidGenerator.GenerateRpcUid | internal/rpc/relay_client.go:73-77 | The uid is the text relay-, the clock, a dash and the next counter value, and none of those given out before, whatever the clock shows. |
| Futures.FutureManager.Register | internal/rpc/future.go:57-61 | Adds the future as waiting under its uid, pushing out one already waiting there. |
| Futures.FutureManager.Pop | internal/rpc/future.go:63-69 | Returns the waiting future of the uid, or nothing, and the uid no longer waits. |
| Futures.FutureManager.SetSuccess | internal/rpc/future.go:71-75 | Completes exactly the waiting future of the uid with the value, and does nothing for an unknown uid. |
| Futures.FutureManager.SetError | internal/rpc/future.go:77-81 | The same with an error. |
| Stubs.LocalEqualsRoundTrip | internal/rpc/relay_client.go:29-71 | For every stub table, packet id and arguments, unregistered ids and panics included, the future of a full round trip holds exactly what the local shortcut returns. |
| Stubs.ResponseCarriesOutcome | internal/rpc/relay_handlers.go:37-70 | Reading a response back gives the result text or error text the callee had. |
| Stubs.AnswersExactly | internal/rpc/stub_server.go:73-82 | Case by case, for the response and the local call alike: a returned string is the result as it is, nil is the empty text, an object its JSON text; a handler's error is reported in its own words, an unknown packet id and a panic in the source's words with the packet id. |
| Stubs.HandleRelayRpcRequest | internal/rpc/relay_handlers.go:21-48 | Answers a parsed request with its uid and the outcome of Invoke on the arguments as sent, and answers nothing else. |
| Stubs.HandleRelayRpcResponse | internal/rpc/relay_handlers.go:50-70 | Completes the future of the response's uid with what the response carries, and changes nothing without data. |
| Stubs.RawToStringList | internal/rpc/relay_handlers.go:72-78 | Keeps number, order and text of the arguments, so that turning them back gives the originals. |
| Stubs.RawToJsonArgs | internal/rpc/relay_handlers.go:80-86 | Keeps number, order and text of the arguments. |
| WireCodec.RoundTripExactly | internal/core/route_message.go:18-143 | Decoding undoes encoding if and only if the type is nil or one of 0 to 5 and every string is below 2^31 bytes; nil and empty data stay apart. |
| WireCodec.PayloadLayout | internal/core/route_message.go:18-70 | Where everything stands in the payload of a transportable message: the two strings with their lengths before them, the type or minus one, the data's length or minus one, and the data, with nothing behind. |
| WireCodec.PutInt32Bytes | internal/core/route_message.go:18-70 | Integers are four bytes, most significant first, negative ones in two's complement. |
| WireCodec.PayloadAcceptsExactly | internal/core/route_message.go:72-143 | A payload decodes to a message if and only if it is non-empty and, after the prefix test, is that message's fields laid out in order with any unread bytes behind. |
| WireCodec.FailsExactly | internal/core/route_message.go:72-143 | Which error a payload is refused with, read off by position after the prefix test: a missing or negative sender length, a missing or negative receiver length, or anything cut short. |
| WireCodec.PrefixNeverFiresOnMessages | internal/core/route_message.go:78-92 | The extra-prefix test does not fire on any transportable message. |
| WireCodec.PrefixNeverMisleads | internal/core/route_message.go:78-106 | On any payload at all, where the test fires the payload as it stands does not decode, so the test never changes what a decodable payload means. |
| WireCodec.ExtraPrefixIsRejected | internal/core/route_message.go:78-106 | A message with one true extra length prefix is not recognised and is rejected for its receiver length. |
| WireCodec.SkippedPrefix | internal/core/route_message.go:78-92 | The prefix that is skipped is four less than the bytes behind it; exactly those bytes are then decoded. |
| WireCodec.HopNormalises | internal/core/route_message.go:18-143 | Whatever one hop accepts, it passes on in a form that is no longer and that the next hop decodes to the same message. |
| WireCodec.HopsSettle | internal/VirtualRouterServer/session.go:48-58 | Over any number of hops the bytes settle at the first one. |
| WireCodec.HopsKeepMessages | internal/VirtualRouterServer/session.go:48-58 | Encoder output is carried byte for byte over any number of hops. |
| WireCodec.EncodePayload | internal/core/route_message.go:18-70 | The buffer built field by field is the payload of the message, and a nil message is an error. |
| WireCodec.DecodeRouteMessagePayload | internal/core/route_message.go:72-143 | The cursor with its seek and rewind reads what the field-wise grammar says, with the same error in every failing case. |
| Framing.FrameReadBackExactly | internal/core/framing.go:11-32 | A frame is read back, with the stream left right behind it, if and only if its payload is within 10 MiB. |
| Framing.NoFrameExactly | internal/core/framing.go:18-32 | A length over 10 MiB is refused as soon as its header is in; anything else that is missing is the end of the stream. |
| Framing.CutStream | internal/core/framing.go:18-32 | However a stream of frames is cut off, a reader gets exactly the whole frames and then an end-of-stream error. |
| Framing.WholeFramesIsMaximal | internal/core/framing.go:18-32 | The number of whole frames used above is the largest that fits in the bytes received. |
| Framing.ReadSplitStream | internal/core/framing.go:18-32 | For every list of payloads, every cut and every split into non-empty reads, the read loop returns exactly the whole frames, and the full list if nothing is cut. |
| Framing.Stream.ReadFull | internal/core/framing.go:18-31 | Over any split it returns the next n bytes and leaves the rest, or fails exactly when fewer have arrived. |
| Framing.Stream.ReadFrame | internal/core/framing.go:18-32 | Depends only on the bytes, not on how they were split: same payload, same error, same rest as on the flat stream. |
| Framing.EncodeFrame | internal/core/framing.go:11-16 | The filled buffer is the four header bytes and then the payload. |
| Framing.HopStaysWithinFrame | internal/VirtualRouterServer/session.go:48-58 | A payload accepted at one hop within the frame limit is framed, read and decoded to the same message at the next. |
| Framing.RpcFrameExactly | internal/rpc/stub_server.go:84-96 | A direct RPC frame of 1 byte to 1 MiB is read with the stream left right behind it if and only if its header arrives in one piece. |
| Framing.RpcFrameRefusedExactly | internal/rpc/stub_server.go:84-96 | With its header in one piece a direct frame is refused if and only if it is empty or over 1 MiB, and ends with the stream if and only if its payload does. |
| Framing.RpcStreamExactly | internal/rpc/stub_server.go:84-96 | A list of such frames is read cleanly one after the other if and only if no header is cut. |
| Framing.CutHeaderReads | internal/rpc/stub_server.go:84-96 | What a header cut after one, two or three bytes leads to, whatever is behind the frame: the length read falls short by less than the missing bytes can say, and the read is an error if it is zero and otherwise gives that many bytes from the rest of the header on. |
| Framing.RpcHeaderCutFails | internal/rpc/stub_server.go:84-92 | A header cut after one byte is always an error, however the rest arrives and whatever is behind it. |
| Framing.Stream.ReadRpcFrame | internal/rpc/stub_server.go:84-96 | Takes the header from a single read, missing bytes counting as zero, and the body from as many reads as needed. |
| TrafficStats.WindowRefinesHistory | internal/VirtualRouterServer/server.go:334-366 | With a clock that does not go back, each router's pruned window and the request window are exactly the hits of the last 60,000 ms out of everything ever recorded. |
| TrafficStats.RecentMeans | internal/VirtualRouterServer/server.go:334-350 | The recent part of a history holds each hit from the cutoff on as often as it was recorded, in the same order, and no other. |
| TrafficStats.PruneIsFilterExactly | internal/VirtualRouterServer/server.go:334-350 | Pruning keeps exactly the recent hits if and only if no recent hit is followed by a stale one. |
| TrafficStats.ClockStepBackBreaksWindow | internal/VirtualRouterServer/server.go:352-366 | After the clock goes back once, the request window counts a hit that is out of date. |
| TrafficStats.TotalsAddUp | internal/VirtualRouterServer/server.go:305-332 | Outgoing totals summed over all routers count the RPCs with a sender, incoming totals those with a target, over every run, self-calls included. |
| TrafficStats.WindowWithinTotal | internal/VirtualRouterServer/server.go:305-332 | A router's totals count its whole history and its window is never longer. |
| TrafficStats.RouterTotals | internal/VirtualRouterServer/server.go:305-332 | Each router's own outgoing and incoming totals count the RPCs that name it as sender and as target, and it has an entry from the first of them on. |
| TrafficStats.RankingCountsHistory | internal/VirtualRouterServer/server.go:273-287 | Each line of the ranking shows the router's hits of the last minute and its hits ever, counted over the full history. |
| TrafficStats.PageLinesExactly | internal/VirtualRouterServer/server.go:258-287 | The lines a page is made from are exactly one for each matching router named in an RPC, with its outgoing, incoming and summed counts and its hits of the last 60,000 ms. |
| TrafficStats.RankingIsAFunctionOfHistory | internal/VirtualRouterServer/server.go:258-303 | For any two histories that agree on the RPCs, however requests, counts and other ranking pages with their pruning come between, two pages of the same moment, keyword and limit are equal, whatever order the maps were walked in. |
| TrafficStats.PruneLastMinute | internal/VirtualRouterServer/server.go:334-350 | The index loop returns the list from its first recent hit on. |
| TrafficStats.ServerStats.RecordRouterRPC | internal/VirtualRouterServer/server.go:305-323 | Counts the RPC once for a named sender and once for a named target, also when they are the same router. |
| TrafficStats.HitKeepsRecentOnly | internal/VirtualRouterServer/server.go:305-358 | Recording a hit keeps the recent ones before it and itself, and nothing older than 60,000 ms. |
| TrafficStats.ServerStats.RecordRequestHit | internal/VirtualRouterServer/server.go:352-358 | Adds the request to the window and prunes it. |
| TrafficStats.ServerStats.RequestsPerMinute | internal/VirtualRouterServer/server.go:360-366 | Returns the size of the window pruned at this moment. |
| TrafficStats.ServerStats.RouterRPCStats | internal/VirtualRouterServer/server.go:258-303 | Returns as many matching routers as the limit allows (50 if none is given, at most 500), each with its counters, more hits in the last minute first, then the larger total, then the lesser id; none left out ranks before one that is listed; and prunes exactly those that match. |
| Ranking.RankingUnique | internal/VirtualRouterServer/server.go:289-302 | There is only one list that is ranked, has the right length and leaves out nothing that comes before what it keeps. |
| Ranking.RankedInFields | internal/VirtualRouterServer/server.go:289-297 | In a ranked list hits of the last minute never rise, among equals totals never rise, and among equals in both the ids ascend. |
| Ranking.BeforeIsStrict | internal/VirtualRouterServer/server.go:289-297 | The comparator is asymmetric, irreflexive, and decides between any two different ids. |
| Basics.LexLessMeans | internal/VirtualRouterServer/server.go:289-297 | Ids compare as strings: a proper prefix is less, otherwise the first differing character decides. |
| Ranking.BeforeTransitive | internal/VirtualRouterServer/server.go:289-297 | The comparator is transitive. |
| LogRotation.RotationKeepsSuffix | internal/VirtualRouterServer/log_capture.go:163-223 | After any writes into an empty directory, the files joined oldest to newest are exactly the last so many whole writes; nothing is lost while fewer files than allowed exist. |
| LogRotation.RotationBounds | internal/VirtualRouterServer/log_capture.go:163-223 | At most maxFiles files; a file over maxBytes is one single write; any two neighbouring files together are over maxBytes. |
| LogRotation.FilesWithinLimit | internal/VirtualRouterServer/log_capture.go:173-181 | If no single write is over maxBytes, no file ever is. |
| LogRotation.LossMeansHalfFull | internal/VirtualRouterServer/log_capture.go:200-223 | Bytes are lost only when more than maxFiles/2 times maxBytes are on disk. |
| LogRotation.RotatingFileWriter.Write | internal/VirtualRouterServer/log_capture.go:163-182 | Puts the bytes behind the current file if that keeps it within the limit, else alone into a new one with the files before it kept up to the limit; reopens after Close with the true size. |
| LogRotation.RotatingFileWriter.Rotate | internal/VirtualRouterServer/log_capture.go:200-223 | Every kept file moves up by one, the oldest beyond the limit is gone, and an empty current file is open. |
| LogRotation.RotatingFileWriter.Close | internal/VirtualRouterServer/log_capture.go:48-58 | Changes no file. |
| LogRotation.RotatingFileWriter.constructor | internal/VirtualRouterServer/log_capture.go:133-161 | Opens on the files that are there, or creates an empty one; limits that are not positive or below two take their defaults. |
| LogRotation.RestartKeepsSuffix | internal/VirtualRouterServer/log_capture.go:163-223 | From any files an earlier process left, written under any limits, the files joined are a suffix of what these held and of all writes since, with nothing lost while there are fewer files than allowed, and never more files than allowed. |
| LogRotation.RestartWithinLimit | internal/VirtualRouterServer/log_capture.go:163-223 | From such a start no file is over maxBytes if none was and no single write is. |
| Reconnect.OneWorker | internal/VirtualRouterClient/client.go:248-280 | In every reachable state the flag is up exactly while one worker is alive, there is never a second, and an open client has a connection. |
| Reconnect.StartedIsOpenOrTrying | internal/VirtualRouterClient/client.go:64-109 | From a successful Start until the first Shutdown the client is open with a connection or a worker is alive. |
| Reconnect.TurnLeadsTo | internal/VirtualRouterClient/client.go:255-279 | A worker that finds the client wanted and closed opens it with a good dial and is done, even if the stop channel is closed; after a failed dial it goes on unless it sees that; it is done without dialling when the client is not wanted. |
| Reconnect.LostLeadsTo | internal/VirtualRouterClient/client.go:330-344 | A lost connection leaves a wanted client closed, without a connection and with exactly one worker, and one that is shut down as it is. |
| Reconnect.StartLeadsTo | internal/VirtualRouterClient/client.go:64-99 | Start without registered stubs or on a started client changes nothing; else a good dial opens it and a failed one leaves it to a worker. |
| Reconnect.ShutdownLeadsTo | internal/VirtualRouterClient/client.go:323-328 | Shutdown closes the client and its stop channel, and a worker that is there ends at its next turn. |
| Reconnect.OpensExactly | internal/VirtualRouterClient/client.go:248-280 | A closed client with a worker can come to be open without another Start if and only if it is still wanted. |
| Reconnect.ShutdownIsFinalUntilStart | internal/VirtualRouterClient/client.go:323-328 | After Shutdown, through any turns and lost connections, the client stays closed until Start is called again. |
| Reconnect.StartReopensAfterShutdown | internal/VirtualRouterClient/client.go:64-99 | A later Start does open it again, so the condition is needed. |
| Reconnect.StrandedExactly | internal/VirtualRouterClient/client.go:248-280 | A started client can, without another Shutdown, come to want a connection while it is not open and has no worker, if and only if its stop channel is closed, that is, if and only if it was shut down before. |
| Reconnect.RestartCanStrand | internal/VirtualRouterClient/client.go:272-277 | A shortest such run: Shutdown, Start with a failed dial, and one turn of the worker, which sees the closed stop channel. |
| Reconnect.RouterClient.StartClient | internal/VirtualRouterClient/client.go:64-99 | Starts once: opens on a good dial, otherwise hands over to one worker; without registered stubs it changes nothing. |
| Reconnect.RouterClient.OnConnectionLost | internal/VirtualRouterClient/client.go:330-344 | Closes the connection and makes sure a worker is alive, unless the client is shut down. |
| Reconnect.RouterClient.WorkerTurn | internal/VirtualRouterClient/client.go:255-279 | Does what a turn does in TurnLeadsTo: a good dial opens a wanted, closed client and ends the worker. |
| Reconnect.RouterClient.ShutdownClient | internal/VirtualRouterClient/client.go:323-328 | Closes the connection and the stop channel and clears both flags. |
| Reconnect.NextReconnectDelay | internal/VirtualRouterClient/client.go:421-441 | For every interval and attempt it returns what int64 arithmetic gives, 10 s standing in for an interval that is not positive; below 2^62 ns that is the base for the first attempt and min(60 s, base times 2^(attempt-1)) after it, with at most 16 doublings. |
| Reconnect.ClosedFormExactly | internal/VirtualRouterClient/client.go:427-440 | The closed form holds for all attempts if and only if the interval is below 2^62 ns; from there on the first doubling overflows. |
| Reconnect.CapExactly | internal/VirtualRouterClient/client.go:427-440 | For every interval, the delay is within 60 s if and only if it is not the first attempt or the interval, as int64 nanoseconds, is within 60 s. |
| Reconnect.MonotoneExactly | internal/VirtualRouterClient/client.go:421-441 | For every interval, delays never shrink from attempt to attempt if and only if the interval, as int64 nanoseconds, is between 0 and 60 s or, after overflow, below -2^62; under 2^62 ns that is just being within 60 s. |

## Left out

- SessionRegistry.RouterSessionManager.CheckHeartbeat: one method call has nothing between its two halves; what can happen between them is in the step system (`Collect`, `Purge`).
- The uid counter and the traffic totals are unbounded; their wrap-around at 2^63 and 2^64 is not modelled.
- Log directories with more files than maxFiles or with gaps in the numbering: the files there at the start are numbered without gaps and within the limit.
- Failing file operations: every open, rename, remove and write of the log files succeeds.
- The in-memory buffer of recent log lines (`logCapture`): a bounded list that would only add easy members.
- The relay client cache and the choice between relay and direct mode in the route table: one lookup by id.
- Whether a dropped direct client's socket is closed: the source does not close it when a node's address changes.
- `RelayClient.Call` before its first send (waiting for a connection) and exact timeouts: a call may give up or time out at any moment it is waiting.
- The server's store of debug answers: an answer to the debugger is not forwarded, and what is done with it is not modelled.
- JSON, reflection over handler types, JWT, HTTP pages, IP lookup, configuration files and logging.
- Goroutine interleavings finer than the steps named above, in particular inside one turn of the reconnect worker.

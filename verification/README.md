# Relay hub connection registry and message router

A Dafny model of the core of a small WebSocket relay server
(`websocket_server.py`). Clients open a WebSocket to the server. The server
keeps the set of live connections in a `ConnectionManager`, together with a
shared status document (`status`, `users_online`, `last_updated`,
`custom_data`). Each inbound frame is classified by its JSON `type` field,
and boss/ack events and signalling/chat messages are fanned out to every
live client.

The model has three modules:

- `ConnectionManager` (`connection_manager.dfy`): an immutable `Manager`
  record holding a `set<ConnId>` and the `SharedData` document, with pure
  step functions `Init`, `Connect`, `Disconnect` and `UpdateUserCount`. It
  also has the `Broadcast` method, which follows the source's two-phase
  loop: collect the clients to drop, then discard them. A reference
  function `AfterBroadcast` states the resulting set. What the transport
  reports during a broadcast is an oracle `Net`: the set of clients in the
  CONNECTED state and the set whose `send_text` raises. Lemmas cover the
  count (`users_online` equals the set size over any sequence of connects
  and disconnects, and never falls below it once broadcasts are mixed in),
  idempotence of
  disconnect, connect/disconnect as inverses, and the stale count that a
  broadcast leaves behind.
- `Router` (`router.dfy`): `Classify` is the total dispatch from a parsed
  frame to an `Action`. `Route` gives the text that is broadcast.
  `json.loads` is abstracted to the `Parsed` datatype. `json.dumps` is a
  `serialize` function parameter.
- `Handler` (`handler.dfy`): one endpoint invocation. `Serve` accepts and
  connects, `Loop` runs the receive loop over the frames the peer sends,
  and the `finally` disconnect runs on every exit path.

Behaviour of the code worth noting:

- offer/answer/candidate/chat_message frames are broadcast to every live
  client as the raw text (`websocket_server.py` lines 119-121). The file
  keeps no user-ID registry and sends nothing to a single recipient.
- A failed send during a broadcast only removes the client from the set.
  `users_online` is not recomputed, so it goes stale
  (`BroadcastLeavesCountStale`).
- Only frames on which `json.loads` raises `json.JSONDecodeError` are
  skipped (lines 103-107). Any other exception in lines 104-109 ends the
  handler through the generic `except Exception`, and the `finally`
  disconnects the client (lines 132-136); this is `Parsed.Raises` and
  `Action.Abort`. Such frames include valid JSON that is not an object (a
  list, number or string, on which `data.get` raises), and valid JSON
  holding an integer literal longer than the interpreter's digit limit
  (`json.loads` raises a plain `ValueError`).

## Model

| member | source | states |
|---|---|---|
| ConnectionManager.Init | websocket_server.py:24-33 | the new manager has no connections, `users_online` is 0 and matches the empty set, `status` is "Offline", `custom_data` is empty, and `last_updated` is the supplied clock reading |
| ConnectionManager.UpdateUserCount | websocket_server.py:47-49 | afterwards `users_online` equals the size of the connection set; the set and the other document fields are unchanged |
| ConnectionManager.Connect | websocket_server.py:35-40 | the set becomes old ∪ {c}, the count matches the new set, and status, last_updated and custom_data are unchanged |
| ConnectionManager.Disconnect | websocket_server.py:42-45 | the set becomes old − {c}, c is gone, the count matches the new set, and the other fields are unchanged |
| ConnectionManager.DisconnectIdempotent | websocket_server.py:42-45 | disconnecting twice gives the same state as disconnecting once |
| ConnectionManager.DisconnectAbsent | websocket_server.py:44-45 | discarding an absent connection leaves the set unchanged, and leaves the whole state unchanged when the count was already right |
| ConnectionManager.ConnectThenDisconnect | websocket_server.py:35-45 | disconnecting a connection that was just connected as a new one restores the exact prior state |
| ConnectionManager.ConnectPresent | websocket_server.py:39-40 | connecting an already live connection leaves the set unchanged (set semantics of `add`) |
| ConnectionManager.Broadcast | websocket_server.py:51-68 | the final state is the old set minus every client that was not CONNECTED or whose send failed; nothing is added; the document (including `users_online`) is unchanged; exactly the live CONNECTED clients get a send attempt, each exactly once, all with the same message |
| ConnectionManager.AfterBroadcastMembership | websocket_server.py:55-68 | a client survives a broadcast if and only if it was live, CONNECTED, and its send did not raise |
| ConnectionManager.AfterBroadcastShrinks | websocket_server.py:67-68 | the post-broadcast set is a subset of the old set, and the document is unchanged |
| ConnectionManager.BroadcastLeavesCountStale | websocket_server.py:51-71 | starting from an in-sync count, a broadcast that drops anyone leaves `users_online` strictly above the set size, because broadcast does not recount |
| ConnectionManager.CountInvariant | websocket_server.py:35-49 | over any sequence of connects and disconnects from an in-sync state, `users_online` equals the size of the connection set |
| ConnectionManager.CountCoversInvariant | websocket_server.py:35-71 | over any sequence of connects, disconnects and broadcasts, `users_online` never falls below the size of the set, and status, last_updated and custom_data never change |
| ConnectionManager.ApplyMembership | websocket_server.py:35-45 | after connects and disconnects, a connection is live exactly when the last operation naming it was a connect, or when no operation named it and it was live at the start |
| Router.Lookup | websocket_server.py:104-109 | the value found under a key is the one from the last pair with that key, as in the `dict` that `json.loads` builds; nothing is found exactly when no pair has that key |
| Router.TypeFamiliesDisjoint | websocket_server.py:112-121 | the boss/ack type names and the signalling type names do not overlap, so the order of the two tests in the dispatch does not matter |
| Router.Classify | websocket_server.py:103-127 | total dispatch, with each case an if-and-only-if: `JSONDecodeError` → skip; any other exception from decoding or `.get` → abort the loop; boss/ack type → broadcast the decoded object re-serialised; offer/answer/candidate/chat_message → broadcast the raw frame; any other or missing type → no action |
| Router.Route | websocket_server.py:109-121 | a frame produces text to broadcast exactly when it decodes to an object whose type is in one of the two relayed families |
| Router.SignalingRelayedVerbatim | websocket_server.py:119-121 | a signalling or chat frame is broadcast as the original frame text, whatever the serialiser would produce |
| Router.BossRelayedReserialized | websocket_server.py:112-118 | a boss/ack frame is broadcast as the serialisation of its decoded object, not as the received text; two frames that decode to the same object with the same key order are relayed as the same text |
| Router.UnknownTypeIgnored | websocket_server.py:126-127 | an object whose `type` (the last `type` pair) is missing, null, not a string or unrecognised yields no action |
| Handler.HandledIsPrefixBeforeAbort | websocket_server.py:99-109 | the frames the loop handles are the longest prefix of the stream with no frame that makes the loop body raise; the frame right after it, if any, is one that raises |
| Handler.Loop | websocket_server.py:99-133 | the loop ends in error if and only if some frame makes the loop body raise (anything but `JSONDecodeError`), and otherwise ends the way the stream ended (close or receive failure); it broadcasts exactly the routed texts of the frames before the first such frame, in order; the live set afterwards is exactly the old set minus, for each of those frames that broadcast, the clients not CONNECTED or whose send failed; the document is unchanged |
| Handler.MalformedFrameSkipped | websocket_server.py:103-107 | a frame on which `json.loads` raises `JSONDecodeError` is dropped and the loop continues with the next frame exactly as if it had not arrived |
| Handler.LoopEndsAtEndOfStream | websocket_server.py:99-133 | when no frame makes the loop body raise, the loop runs through all frames and ends as the stream ended: `PeerClosed` on `WebSocketDisconnect`, `ReceiveError` when `receive_text` raises something else |
| Handler.Serve | websocket_server.py:93-136 | on every exit path (failed accept, peer close, receive error, loop error) the connection is discarded, the count is back in sync with the set, no other connection was added, and the other document fields are unchanged; after a successful accept it ends in loop error exactly when some frame raises and otherwise as the stream ended, broadcasts exactly the loop's routed texts, and leaves exactly the loop's survivors minus itself |
| Handler.BossDeathScenario | websocket_server.py:93-136 | with client 2 live, client 1 connects and sends one Boss_Death frame while both are CONNECTED and both sends succeed: the re-serialised object is broadcast once, the attempted set of the broadcast (the recipients `Broadcast` guarantees) is both clients, the sender included, and after client 1 closes only client 2 is live and `users_online` is 1 |

## Left out

- WebSocket `accept`, `receive_text` and `send_text`, and the FastAPI app and route registration: transport I/O. Whether a client is CONNECTED and whether a send raises are supplied as the `Net` oracle. A failed accept is the `acceptOk` flag of `Serve`. The frame list ends when `receive_text` stops delivering frames; the `Ending` parameter says whether that was the peer closing the socket or another exception.
- asyncio scheduling: other tasks can run at the `await` inside the broadcast loop and between frames. Each operation is modelled as atomic, and `Serve` sees only its own connection's activity.
- `json.loads` and `json.dumps` internals: parsing is the caller's `parse` function into `Parsed`, and serialisation is an opaque `serialize` function. Which frames make `json.loads` raise something other than `JSONDecodeError` (a `ValueError` for an over-long integer literal, a `RecursionError` for deep nesting) is decided by `parse`; all of them are `Parsed.Raises` and end the loop like a non-object value.
- `datetime.now()`: the clock reading is the `now` parameter of `Init`.
- Logging, including the log line after a broadcast that removed clients: side effects only.
- The per-send `except Exception` clause catches every `Exception`; the model does not distinguish them, so a send either raises or does not. A cancellation (`asyncio.CancelledError`, a `BaseException`) raised by `send_text` escapes `broadcast` before the discard pass; it is left out together with asyncio scheduling.
- Router.Route: its contract states only when a frame produces text. The text itself is stated by `SignalingRelayedVerbatim` and `BossRelayedReserialized`.

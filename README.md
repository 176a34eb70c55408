# LED control server: registry and broadcast model

A Dafny model of the small FastAPI server in `webserver.py`. The server keeps one
in-memory flag: the LED is on or off. `POST /led/{state}` sets the flag and pushes
`"LED is on"` or `"LED is off"` to every WebSocket subscriber. Each subscriber on `/ws`
first gets that same text as a snapshot of the current flag. The core is
`ConnectionManager`. It holds a Python list of open connections, appends on connect and
removes on disconnect. During `broadcast` it deletes every connection whose `send_text`
raises `WebSocketDisconnect`.

Modules:

- `Lists` models `list.remove`, the one list operation written as a function here:
  `RemoveFirst` deletes the first occurrence, and `IndexOf` is the search for that first
  occurrence inside `list.remove`. The registry's `append` is written directly in
  `Connect`, and its iteration in `Pass` and `Broadcast`. It also defines
  two predicates: no duplicates (`NoDup`) and subsequence (`IsSubseq`).
- `Messages` covers the state word, the pushed frame text, token parsing and the JSON
  reply of `switch_led`.
- `Registry` holds the class `ConnectionManager` with the list as a `seq` field. The
  function `Pass` specifies one run of `broadcast`'s `for` loop. The loop removes from the
  list while walking it: Python's iterator keeps a position, removal shifts the later
  elements down, and the position still advances. `Deregister` is the removal the code
  evidently intends: idempotent, so removing an absent connection is a no-op.
- `Broadcast` describes a pass in terms of positions in the list as it was before the
  pass (`Kept`, `Visited`) and proves the guarantees of a pass from that description. It
  also holds a corrected pass that walks a copy of the list (`SnapshotPass`).
- `Server` holds the class `App`. Its fields are the flag, the manager, a ghost `wire`
  that logs every `send_text` call, and a ghost `listening` set of handlers waiting in the
  receive loop. Its methods are `switch_led`, `notify_clients` and the two halves of
  `websocket_endpoint`.
- `Scenarios` states what the handlers do on small concrete cases.

Boundaries with the outside world:

- The outcome of each send is a parameter. A broadcast receives the set `failing` of
  connections whose send raises, and a subscription receives whether its snapshot send
  raises.
- The WebSocket handshake always succeeds.
- Each handler runs atomically. `websocket_endpoint` is split at the receive loop into
  `Subscribe` (connect, then the snapshot) and `Unsubscribe` (the loop has exited, then
  cleanup). Other handlers can run between the two.

In three places the code does not do what it evidently intends. The model follows the
code, and the intended behaviour stands beside it:

- The code removes with `list.remove`, which raises `ValueError` when the connection is
  absent. Deregistration is meant to be idempotent: removing an absent connection should
  be a no-op.
- The code's broadcast skips the connection right after a removed one. Every other
  subscriber is meant to receive the message in that pass.
- The code sends the snapshot outside the `try`, so a failed snapshot leaves the
  connection registered. Cleanup is meant to run when the handler ends after a send or
  receive error.

Two more behaviours of the code are modelled as they are:

- `except Exception` does not catch `asyncio.CancelledError`, which is a `BaseException`
  and not an `Exception`. A handler task cancelled in the receive loop runs neither
  cleanup clause, so its connection stays registered. `Unsubscribe` models this as the
  `Cancelled` exit.
- The code keeps a list, not a set. Duplicates are possible in principle, so the
  guarantees below assume the no-duplicates invariant `App.Valid()`. That invariant holds
  because every WebSocket object is new.

## Model

| member | source | states |
|---|---|---|
| `Messages.StateWord` | webserver.py:82 | The state word, here and identically in `notify_clients` at webserver.py:96, is `"on"` exactly when the flag is true and `"off"` exactly when it is false. |
| `Messages.StateMessage` | webserver.py:82-83 | The frame text is `"LED is on"` exactly when the flag is true and `"LED is off"` exactly when it is false. |
| `Messages.MessageDeterminesState` | webserver.py:95-97 | Two flags give the same frame text only if they are equal, so a subscriber can recover the flag. |
| `Messages.ParseToken` | webserver.py:46-51 | Exactly `"on"` selects true and exactly `"off"` selects false. Every other token is invalid. |
| `Messages.TokenRoundTrip` | webserver.py:46-49 | Parsing inverts the state word in both directions. |
| `Messages.SwitchResponse` | webserver.py:45-54 | The reply is `{"error": "Invalid state"}` exactly for invalid tokens. Otherwise it is `{"status": "LED turned <state>"}`, where `<state>` is the word for the new flag. |
| `Lists.IndexOf` | webserver.py:66 | The position `list.remove` deletes: the element is there and does not occur before it. |
| `Lists.RemoveFirst` | webserver.py:66 | `list.remove` deletes one element: the list shrinks by exactly one and nothing new appears. |
| `Lists.RemoveFirstDeletesFirst` | webserver.py:66 | The element deleted is the first occurrence; the elements before and after it keep their order. |
| `Lists.RemoveFirstAt` | webserver.py:66 | In a list without duplicates, removing the element at position k removes exactly position k. |
| `Registry.SendLog` | webserver.py:69-71 | One frame per connection sent to. |
| `Registry.SendLogFrames` | webserver.py:69-71 | The k-th frame is the send to the k-th connection visited, with the message, and marked delivered exactly when that send did not raise. |
| `Registry.SendLogAppend` | webserver.py:69-71 | The frames of two runs of sends are the frames of the first run followed by those of the second. |
| `Registry.Pass` | webserver.py:69-73 | A pass never grows the list, and it only sends to registered connections and only keeps registered ones. |
| `Registry.Deregister` | webserver.py:65-66 | Corrected removal. An absent connection leaves the list unchanged. A present one shortens it by exactly one. The result is a subsequence. Without duplicates, the connection is gone afterwards. |
| `Registry.DeregisterIdempotent` | webserver.py:65-66 | Without duplicates, deregistering twice is the same as deregistering once. |
| `Registry.DeregisterTwiceWithDuplicate` | webserver.py:65-66 | With a duplicate entry, the second removal is not a no-op. |
| `Registry.ConnectionManager.constructor` | webserver.py:58-59 | The registry starts empty. |
| `Registry.ConnectionManager.Connect` | webserver.py:61-63 | Appends the connection at the end. The earlier entries and their order do not change. |
| `Registry.ConnectionManager.Disconnect` | webserver.py:65-66 | Requires the connection to be present and removes its first occurrence. |
| `Registry.ConnectionManager.Broadcast` | webserver.py:68-73 | The list-mutating loop: the new list and the frames sent are those of `Pass` from position 0. |
| `Broadcast.Kept` | webserver.py:69-73 | By original position, the list after a pass: never longer, and only registered connections. `KeptIsSubseq` proves it a subsequence of the list before, and `PassByPosition` proves it equal to the pass's list. |
| `Broadcast.KeptIsSubseq` | webserver.py:69-73 | The list after a pass, by original position, keeps the relative order of the list before. |
| `Broadcast.Visited` | webserver.py:69-73 | By original position, the connections a pass sends to: at most as many as are registered, and only registered ones. `VisitedIsSubseq` proves them a subsequence, so at most once per position, and `PassByPosition` proves them equal to the pass's sends. |
| `Broadcast.VisitedIsSubseq` | webserver.py:69-73 | The sends of a pass, by original position, follow list order and reach each position at most once. |
| `Broadcast.PassByPosition` | webserver.py:69-73 | Without duplicates, the as-written loop matches the by-position description: a failed send removes that connection and jumps over the next one. |
| `Broadcast.KeptMembers` | webserver.py:69-73 | Without duplicates, a connection stays in the list exactly when it was not sent to and failed. |
| `Broadcast.VisitedPositions` | webserver.py:69-73 | Without duplicates, position k is sent to exactly when position k-1 was not a visited connection whose send failed. |
| `Broadcast.BroadcastGuarantees` | webserver.py:68-73 | Without duplicates, after a pass: (1) every connection that was sent to and failed is removed; (2) every other connection stays, in its original relative order, with no duplicates; (3) nobody is sent to twice, and sends follow list order; (4) the connection right after a removed one is not sent to, and only those are skipped. |
| `Broadcast.PassWithoutFailures` | webserver.py:68-73 | If no send fails, every registered connection is sent to exactly once, in order, and the list is unchanged. |
| `Broadcast.SkipAfterRemoval` | webserver.py:69-73 | For three distinct subscribers [a, b, c] where b fails and a does not, the pass sends to a and b and never to c. Afterwards [a, c] stay registered. |
| `Broadcast.SurvivorsSpec` | webserver.py:68-73 | The survivors of the corrected pass are exactly the non-failing connections, in their original order. |
| `Broadcast.SnapshotPass` | webserver.py:68-73 | The corrected pass, which iterates over a copy, sends to every connection of the copy in order. |
| `Broadcast.SnapshotPassDeliversToAll` | webserver.py:68-73 | Without duplicates, the corrected pass sends to every registered connection. Exactly the non-failing ones stay, in order. |
| `Broadcast.SnapshotPassReachesThird` | webserver.py:69-73 | For three distinct subscribers [a, b, c] where only b fails, the corrected pass sends to all three and keeps [a, c]. |
| `Server.App.constructor` | webserver.py:7 | At process start the flag is off, nobody is registered and nothing has been sent. |
| `Server.App.NotifyClients` | webserver.py:95-97 | Broadcasts the frame text for the current flag as one pass. The registry keeps its no-duplicates invariant. |
| `Server.App.SwitchLed` | webserver.py:45-54 | A valid token sets the flag and runs exactly one broadcast of the new frame, even when the flag already had that value. An invalid token returns the error and leaves the flag, registry and wire unchanged. The reply is `SwitchResponse`. |
| `Server.App.Subscribe` | webserver.py:78-83 | Appends the connection and sends it the snapshot in the broadcast format. If the snapshot send fails, the handler ends and the connection stays registered. |
| `Server.App.SubscribeGuarded` | webserver.py:78-83 | Corrected subscription. A failed snapshot deregisters the connection, so the registry is unchanged. |
| `Server.App.Unsubscribe` | webserver.py:85-92 | After a `WebSocketDisconnect` or any other `Exception`, the connection is out of the registry, and the outcome is `RemoveRaised` exactly when a broadcast had already pruned it. After a cancellation no clause runs and the registry is unchanged. |
| `Scenarios.InvalidTokenChangesNothing` | webserver.py:50-51 | For the token `"On"`, the reply is the error, the flag stays off, the registry stays `[1]`, and the wire after the request equals the wire before it. |
| `Scenarios.RepeatedOnBroadcastsTwice` | webserver.py:46-53 | Two `"on"` requests give two `"LED turned on"` replies, the flag is on, and the wire is the `"LED is off"` snapshot followed by two `"LED is on"` frames. |
| `Scenarios.SnapshotReflectsLastSwitch` | webserver.py:82-83 | After `"on"` then `"off"`, the flag is off, the new subscriber is listening, and the one frame its subscription adds to the wire is the snapshot `"LED is off"`, delivered. |
| `Scenarios.SecondOfThreeBroken` | webserver.py:68-73 | On a manager with three distinct subscribers a, b, c connected in that order and b broken, the broadcast sends to a (delivered) and b (failed) only, and [a, c] stay registered. |
| `Scenarios.PrunedThenClosed` | webserver.py:88-92 | A connection pruned by a broadcast makes its own cleanup raise, and the registry is empty. |
| `Scenarios.CancelledStaysRegistered` | webserver.py:85-92 | A handler cancelled in the receive loop ends with its connection still registered. |
| `Scenarios.FailedSnapshotOrphan` | webserver.py:79-83 | A failed snapshot leaves the connection registered. The guarded variant leaves the registry empty. |

## Left out

- The HTML page and the `GET /` route (webserver.py:10-41): static content.
- FastAPI routing, JSON serialisation and `uvicorn.run`: framework wiring. Replies are the `Response` datatype.
- Real WebSocket I/O. `accept` always succeeds. `send_text` is an oracle that either succeeds or raises `WebSocketDisconnect`.
- Other exceptions from `send_text` inside `broadcast`. They would escape the loop and abort the request after the flag was set.
- The body of the infinite `receive_text` loop. Only its exit is modelled, by `Unsubscribe`: a `WebSocketDisconnect`, any other `Exception`, or a cancellation.
- `async`/`await` interleaving inside a handler, and concurrent requests. Each handler step is atomic. The code has no locks.
- The `print` of the error in the second `except` clause: logging only. `Unsubscribe` acts the same for both `except` clauses.
- The unwinding of the `ValueError` and the snapshot exception out of the handler. Each ends that one handler, and the server closes that one connection. The model records them as outcomes (`RemoveRaised`, `SnapshotFailed`).
- The corrected variants are not wired into the server, which keeps the code's broadcast and subscription. The corrected `SnapshotPass` and `SubscribeGuarded` stand beside them and are not wired into `SwitchLed`, because the aim is to model the code as it is.

## Findings

| source | as written | input that shows it | evidently intended | confidence | as-written member | corrected member |
|---|---|---|---|---|---|---|
| webserver.py:69-73 | `broadcast` removes from the list it is iterating over, so the connection after each removed one is not sent to in that pass | three distinct subscribers a, b, c connected in that order, only b's send fails: c is never sent the message although it stays registered | every other live subscriber receives the message in the same pass (iterate over a copy) | not executed; high | `Broadcast.SkipAfterRemoval` | `Broadcast.SnapshotPassDeliversToAll` |
| webserver.py:88-92 | the cleanup calls `manager.disconnect`, whose `list.remove` raises `ValueError` when a broadcast has already pruned the connection | subscriber 5 connects, `POST /led/on` with 5's send failing prunes it, then 5's receive loop exits: `ValueError` escapes the handler | deregistration is idempotent, so removing an absent connection is a no-op | not executed; medium | `Scenarios.PrunedThenClosed` | `Registry.DeregisterIdempotent` |
| webserver.py:79-85 | the snapshot `send_text` is outside the `try`, so a failed snapshot ends the handler without deregistering | subscriber 7 connects and its snapshot send raises: 7 stays registered with no handler left to remove it | deregister on every exit path of the handler | not executed; medium | `Scenarios.FailedSnapshotOrphan` | `Server.App.SubscribeGuarded` |

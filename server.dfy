/** The server's handlers over its two pieces of shared state, the LED flag
  * `led_state["on"]` and the `ConnectionManager` instance `manager`:
  * `switch_led` (`POST /led/{state}`), `notify_clients`, and
  * `websocket_endpoint` (`/ws`), split at its one long suspension, the
  * receive loop, into the step that registers and greets a subscriber and the
  * step that runs when the loop exits.
  *
  * Each handler runs atomically. `wire` records every `send_text` call made,
  * in order; `listening` holds the connections whose handler is waiting in
  * the receive loop. Send outcomes are oracles given as parameters. */
module Server {
  import opened Lists
  import opened Messages
  import opened Registry
  import Broadcast

  /** How the first half of `websocket_endpoint` ends. */
  datatype Subscription =
    | Listening       // the snapshot went out and the handler waits in the receive loop
    | SnapshotFailed  // `send_text` of the snapshot raised; the handler ends with that exception

  /** How the receive loop exits: `WebSocketDisconnect`, any other `Exception`,
    * or a `BaseException` that is not an `Exception`, such as the
    * `asyncio.CancelledError` of a cancelled handler task. */
  datatype LoopExit = PeerDisconnected | OtherError | Cancelled

  /** How the cleanup after the receive loop ends. */
  datatype Cleanup =
    | Deregistered  // `manager.disconnect` removed the connection
    | RemoveRaised  // the connection was already gone and `list.remove` raised `ValueError`
    | Skipped       // neither `except` clause matched, so no cleanup ran

  class App {
    var ledOn: bool
    const manager: ConnectionManager
    ghost var wire: seq<Frame>
    ghost var listening: set<ConnId>

    /** Every connection is registered at most once. */
    ghost predicate Valid()
      reads this, manager
    {
      NoDup(manager.activeConnections)
    }

    /** Process start: `led_state = {"on": False}`, `manager = ConnectionManager()`. */
    constructor ()
      ensures Valid() && fresh(manager)
      ensures !ledOn && manager.activeConnections == []
      ensures wire == [] && listening == {}
    {
      ledOn := false;
      manager := new ConnectionManager();
      wire := [];
      listening := {};
    }

    /** `notify_clients`: broadcasts the message for the current flag. */
    method NotifyClients(failing: set<ConnId>)
      requires Valid()
      modifies this, manager
      ensures Valid()
      ensures ledOn == old(ledOn) && listening == old(listening)
      ensures manager.activeConnections == Pass(old(manager.activeConnections), 0, failing).remaining
      ensures wire == old(wire) + SendLog(Pass(old(manager.activeConnections), 0, failing).attempted, StateMessage(ledOn), failing)
    {
      Broadcast.BroadcastGuarantees(manager.activeConnections, failing);
      var frames := manager.Broadcast(StateMessage(ledOn), failing);
      wire := wire + frames;
    }

    /** `switch_led`: `"on"` and `"off"` set the flag and broadcast once, even
      * when the flag already had that value; any other token is answered with
      * the error and changes nothing. */
    method SwitchLed(token: string, failing: set<ConnId>) returns (response: Response)
      requires Valid()
      modifies this, manager
      ensures Valid()
      ensures response == SwitchResponse(token)
      ensures listening == old(listening)
      ensures ParseToken(token) == None ==>
        && ledOn == old(ledOn)
        && manager.activeConnections == old(manager.activeConnections)
        && wire == old(wire)
      ensures ParseToken(token).Some? ==>
        && ledOn == ParseToken(token).value
        && manager.activeConnections == Pass(old(manager.activeConnections), 0, failing).remaining
        && wire == old(wire) + SendLog(Pass(old(manager.activeConnections), 0, failing).attempted, StateMessage(ledOn), failing)
    {
      if token == "on" {
        ledOn := true;
      } else if token == "off" {
        ledOn := false;
      } else {
        return Error("Invalid state");
      }
      NotifyClients(failing);
      response := Status("LED turned " + token);
    }

    /** `websocket_endpoint` up to the receive loop: `manager.connect` (the
      * handshake is taken to succeed), then the snapshot of the current flag
      * in the broadcast format. The snapshot is sent outside the `try`, so
      * when it fails the handler ends without deregistering. `c` is a new
      * WebSocket object, so it is neither registered nor listening. */
    method Subscribe(c: ConnId, snapshotFails: bool) returns (outcome: Subscription)
      requires Valid()
      requires c !in manager.activeConnections && c !in listening
      modifies this, manager
      ensures Valid()
      ensures ledOn == old(ledOn)
      ensures manager.activeConnections == old(manager.activeConnections) + [c]
      ensures wire == old(wire) + [Frame(c, StateMessage(ledOn), !snapshotFails)]
      ensures outcome == if snapshotFails then SnapshotFailed else Listening
      ensures listening == if snapshotFails then old(listening) else old(listening) + {c}
    {
      NoDupAppend(manager.activeConnections, c);
      manager.Connect(c);
      var currentState := StateWord(ledOn);
      wire := wire + [Frame(c, "LED is " + currentState, !snapshotFails)];
      if snapshotFails {
        return SnapshotFailed;
      }
      listening := listening + {c};
      outcome := Listening;
    }

    /** `Subscribe` with the snapshot inside the cleanup scope: a failed
      * snapshot deregisters the connection, so no registration outlives its
      * handler. */
    method SubscribeGuarded(c: ConnId, snapshotFails: bool) returns (outcome: Subscription)
      requires Valid()
      requires c !in manager.activeConnections && c !in listening
      modifies this, manager
      ensures Valid()
      ensures ledOn == old(ledOn)
      ensures manager.activeConnections == if snapshotFails then old(manager.activeConnections)
                                           else old(manager.activeConnections) + [c]
      ensures wire == old(wire) + [Frame(c, StateMessage(ledOn), !snapshotFails)]
      ensures outcome == if snapshotFails then SnapshotFailed else Listening
      ensures listening == if snapshotFails then old(listening) else old(listening) + {c}
    {
      ghost var before := manager.activeConnections;
      NoDupAppend(before, c);
      manager.Connect(c);
      wire := wire + [Frame(c, StateMessage(ledOn), !snapshotFails)];
      if snapshotFails {
        RemoveFirstAppended(before, c);
        manager.Disconnect(c);
        return SnapshotFailed;
      }
      listening := listening + {c};
      outcome := Listening;
    }

    /** `websocket_endpoint` from the exit of the receive loop: both `except`
      * clauses call `manager.disconnect(websocket)` (the second one prints the
      * error first), so after a `WebSocketDisconnect` or any other `Exception`
      * the connection is gone from the registry; when a broadcast had already
      * pruned it, `list.remove` raises `ValueError` out of the handler
      * instead. A cancellation matches neither clause: the handler ends and
      * the connection stays registered. */
    method Unsubscribe(c: ConnId, exit: LoopExit) returns (outcome: Cleanup)
      requires Valid()
      requires c in listening
      modifies this, manager
      ensures Valid()
      ensures ledOn == old(ledOn) && wire == old(wire)
      ensures listening == old(listening) - {c}
      ensures exit == Cancelled ==>
        && manager.activeConnections == old(manager.activeConnections)
        && outcome == Skipped
      ensures exit != Cancelled ==>
        && manager.activeConnections == Deregister(old(manager.activeConnections), c)
        && c !in manager.activeConnections
        && outcome == if c in old(manager.activeConnections) then Deregistered else RemoveRaised
    {
      listening := listening - {c};
      if exit == Cancelled {
        return Skipped;
      }
      var registered := c in manager.activeConnections;
      if registered {
        RemoveFirstKeepsNoDup(manager.activeConnections, c);
        manager.Disconnect(c);
        outcome := Deregistered;
      } else {
        outcome := RemoveRaised;
      }
    }
  }
}

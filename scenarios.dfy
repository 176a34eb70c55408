/** Concrete runs of the server model, each from a fresh process state,
  * showing what the handlers do on small inputs. */
module Scenarios {
  import Lists
  import opened Messages
  import opened Registry
  import opened Server
  import Broadcast

  /** An unknown token is answered with the error; flag, registry and wire
    * stay as they were. */
  method InvalidTokenChangesNothing() returns (response: Response, on: bool, registered: seq<ConnId>,
                                              ghost before: seq<Frame>, ghost after: seq<Frame>)
    ensures response == Error("Invalid state")
    ensures !on && registered == [1]
    ensures after == before
  {
    var app := new App();
    var _ := app.Subscribe(1, false);
    before := app.wire;
    response := app.SwitchLed("On", {});
    after := app.wire;
    on := app.ledOn;
    registered := app.manager.activeConnections;
  }

  /** Two `"on"` requests in a row broadcast twice: the subscriber gets the
    * snapshot and then two `"LED is on"` frames. */
  method RepeatedOnBroadcastsTwice() returns (first: Response, second: Response, on: bool, ghost wire: seq<Frame>)
    ensures first == second == Status("LED turned on")
    ensures on
    ensures wire == [Frame(1, "LED is off", true), Frame(1, "LED is on", true), Frame(1, "LED is on", true)]
  {
    var app := new App();
    var _ := app.Subscribe(1, false);
    first := app.SwitchLed("on", {});
    Broadcast.PassWithoutFailures([1], {});
    second := app.SwitchLed("on", {});
    wire := app.wire;
    on := app.ledOn;
  }

  /** After `"on"` then `"off"`, a new subscriber's snapshot is `"LED is off"`. */
  method SnapshotReflectsLastSwitch() returns (on: bool, outcome: Subscription,
                                              ghost before: seq<Frame>, ghost after: seq<Frame>)
    ensures !on && outcome == Listening
    ensures after == before + [Frame(1, "LED is off", true)]
  {
    var app := new App();
    var _ := app.SwitchLed("on", {});
    var _ := app.SwitchLed("off", {});
    before := app.wire;
    outcome := app.Subscribe(1, false);
    after := app.wire;
    on := app.ledOn;
  }

  /** Three subscribers, the second one broken: the broadcast removes the
    * second and never sends to the third, although the third stays registered. */
  method SecondOfThreeBroken(a: ConnId, b: ConnId, c: ConnId) returns (frames: seq<Frame>, registered: seq<ConnId>)
    requires a != b && b != c && a != c
    ensures frames == [Frame(a, StateMessage(false), true), Frame(b, StateMessage(false), false)]
    ensures registered == [a, c]
  {
    var manager := new ConnectionManager();
    manager.Connect(a);
    manager.Connect(b);
    manager.Connect(c);
    assert manager.activeConnections == [a, b, c];
    Broadcast.SkipAfterRemoval(a, b, c, {b});
    var message := StateMessage(false);
    frames := manager.Broadcast(message, {b});
    SendLogAppend([a], [b], message, {b});
    assert SendLog([a], message, {b}) == [Frame(a, message, true)];
    assert SendLog([b], message, {b}) == [Frame(b, message, false)];
    registered := manager.activeConnections;
  }

  /** A broadcast prunes a connection whose send fails; when that connection's
    * receive loop then exits, the cleanup's `list.remove` raises. */
  method PrunedThenClosed() returns (outcome: Cleanup, registered: seq<ConnId>)
    ensures outcome == RemoveRaised
    ensures registered == []
  {
    var app := new App();
    var _ := app.Subscribe(5, false);
    assert Lists.RemoveFirst([5], 5) == [];
    var _ := app.SwitchLed("on", {5});
    outcome := app.Unsubscribe(5, PeerDisconnected);
    registered := app.manager.activeConnections;
  }

  /** A handler task cancelled in the receive loop runs neither cleanup
    * clause, so its connection stays registered. */
  method CancelledStaysRegistered() returns (outcome: Cleanup, registered: seq<ConnId>)
    ensures outcome == Skipped
    ensures registered == [3]
  {
    var app := new App();
    var _ := app.Subscribe(3, false);
    outcome := app.Unsubscribe(3, Cancelled);
    registered := app.manager.activeConnections;
  }

  /** A subscriber whose snapshot send fails stays registered with no handler
    * left to deregister it; with the guarded variant it does not. */
  method FailedSnapshotOrphan() returns (orphaned: seq<ConnId>, guarded: seq<ConnId>)
    ensures orphaned == [7]
    ensures guarded == []
  {
    var app := new App();
    var outcome := app.Subscribe(7, true);
    assert outcome == SnapshotFailed && 7 !in app.listening;
    orphaned := app.manager.activeConnections;
    var other := new App();
    var _ := other.SubscribeGuarded(7, true);
    guarded := other.manager.activeConnections;
  }
}

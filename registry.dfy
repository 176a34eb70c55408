/** The connection registry of the server (`ConnectionManager`): a Python list
  * of open WebSocket connections that `connect` appends to, `disconnect`
  * removes from, and `broadcast` walks, pruning every connection whose send
  * raises `WebSocketDisconnect`.
  *
  * A connection is identified by a `ConnId`. Sending is an oracle: a
  * broadcast is told the set `failing` of connections whose `send_text`
  * raises; every other send succeeds. */
module Registry {
  import opened Lists

  type ConnId = nat

  /** One `send_text` call: the connection, the text and whether it went through. */
  datatype Frame = Frame(to: ConnId, text: string, delivered: bool)

  /** What one broadcast pass leaves behind: the list after the pass and the
    * connections it sent to, in the order it sent. */
  datatype PassResult = PassResult(remaining: seq<ConnId>, attempted: seq<ConnId>)

  /** The frames produced by sending `message` to `cs` in order. */
  function SendLog(cs: seq<ConnId>, message: string, failing: set<ConnId>): (log: seq<Frame>)
    ensures |log| == |cs|
    decreases |cs|
  {
    if cs == [] then []
    else SendLog(cs[..|cs| - 1], message, failing) + [Frame(cs[|cs| - 1], message, cs[|cs| - 1] !in failing)]
  }

  /** The k-th frame of the log is the send to the k-th connection, carrying
    * the message and marked delivered exactly when that send did not raise. */
  lemma {:induction false} SendLogFrames(cs: seq<ConnId>, message: string, failing: set<ConnId>)
    ensures forall k :: 0 <= k < |cs| ==> SendLog(cs, message, failing)[k] == Frame(cs[k], message, cs[k] !in failing)
    decreases |cs|
  {
    if cs != [] {
      var init := cs[..|cs| - 1];
      SendLogFrames(init, message, failing);
      forall k | 0 <= k < |cs| - 1
        ensures SendLog(cs, message, failing)[k] == Frame(cs[k], message, cs[k] !in failing)
      {
        assert init[k] == cs[k];
      }
    }
  }

  /** The `for connection in self.active_connections` loop of `broadcast`,
    * from iterator position `i` on. Python's list iterator keeps a position
    * and re-reads the list at every step, stopping once the position reaches
    * the current length; `self.disconnect(connection)` removes the first
    * occurrence of that connection while the loop runs, so the elements after
    * it shift down by one and the position still advances. */
  function Pass(s: seq<ConnId>, i: nat, failing: set<ConnId>): (r: PassResult)
    ensures |r.remaining| <= |s|
    ensures forall c :: c in r.remaining ==> c in s
    ensures forall c :: c in r.attempted ==> c in s
    decreases |s| + 1 - i
  {
    if i >= |s| then PassResult(s, [])
    else
      var c := s[i];
      var next := if c in failing then RemoveFirst(s, c) else s;
      var rest := Pass(next, i + 1, failing);
      PassResult(rest.remaining, [c] + rest.attempted)
  }

  /** Removing a connection if it is registered and doing nothing otherwise.
    * Deregistration is meant to be idempotent, so that removing an absent
    * connection is a no-op; `list.remove` is not. */
  function Deregister(s: seq<ConnId>, c: ConnId): (r: seq<ConnId>)
    ensures c !in s ==> r == s
    ensures c in s ==> |r| == |s| - 1
    ensures IsSubseq(r, s)
    ensures NoDup(s) ==> c !in r && NoDup(r)
  {
    if c in s then
      RemoveFirstDeletesFirst(s, c);
      DropOneIsSubseq(s, IndexOf(s, c));
      RemoveFirstKeepsNoDup(s, c);
      RemoveFirst(s, c)
    else
      SubseqRefl(s);
      s
  }

  /** Deregistering twice is deregistering once, for a registry without duplicates. */
  lemma DeregisterIdempotent(s: seq<ConnId>, c: ConnId)
    requires NoDup(s)
    ensures Deregister(Deregister(s, c), c) == Deregister(s, c)
  {
  }

  /** Without the no-duplicates invariant, a second removal is not a no-op. */
  lemma DeregisterTwiceWithDuplicate()
    ensures Deregister(Deregister([4, 4], 4), 4) != Deregister([4, 4], 4)
  {
    assert Deregister([4, 4], 4) == [4];
    assert Deregister([4], 4) == [];
  }

  lemma DropOneIsSubseq(s: seq<ConnId>, k: nat)
    requires k < |s|
    ensures IsSubseq(s[..k] + s[k + 1..], s)
    decreases k
  {
    if k == 0 {
      assert s[..0] + s[1..] == s[1..];
      SubseqRefl(s[1..]);
    } else {
      DropOneIsSubseq(s[1..], k - 1);
      var t := s[..k] + s[k + 1..];
      assert t[0] == s[0];
      assert t[1..] == s[1..][..k - 1] + s[1..][k..];
    }
  }

  lemma RemoveFirstKeepsNoDup(s: seq<ConnId>, c: ConnId)
    requires c in s
    ensures NoDup(s) ==> c !in RemoveFirst(s, c) && NoDup(RemoveFirst(s, c))
  {
    if NoDup(s) {
      RemoveFirstDeletesFirst(s, c);
      var k := IndexOf(s, c);
      NoDupRemoveAt(s, k);
      NotInAfterRemoveAt(s, k);
    }
  }

  lemma NotInAfterRemoveAt(s: seq<ConnId>, k: nat)
    requires NoDup(s) && k < |s|
    ensures s[k] !in s[..k] + s[k + 1..]
  {
    var t := s[..k] + s[k + 1..];
    forall j | 0 <= j < |t| ensures t[j] != s[k] {
      if j < k {
        assert t[j] == s[j];
      } else {
        assert t[j] == s[j + 1];
      }
    }
  }

  /** The log of two runs of sends is the two logs one after the other. */
  lemma {:induction false} SendLogAppend(a: seq<ConnId>, b: seq<ConnId>, message: string, failing: set<ConnId>)
    ensures SendLog(a + b, message, failing) == SendLog(a, message, failing) + SendLog(b, message, failing)
    decreases |b|
  {
    if b == [] {
      assert a + b == a;
    } else {
      var init := b[..|b| - 1];
      SendLogAppend(a, init, message, failing);
      assert (a + b)[..|a + b| - 1] == a + init;
      var last := [Frame(b[|b| - 1], message, b[|b| - 1] !in failing)];
      ConcatAssoc(SendLog(a, message, failing), SendLog(init, message, failing), last);
    }
  }

  /** One iteration of `broadcast`'s loop at position `i`: the send to `s[i]`
    * moves from the rest of the pass to the frames already sent, and the rest
    * of the pass continues on the list `next` the iteration leaves behind. */
  lemma BroadcastStep(s: seq<ConnId>, i: nat, failing: set<ConnId>, next: seq<ConnId>,
                      message: string, sent: bool, frames: seq<Frame>, log: seq<Frame>)
    requires i < |s|
    requires sent == (s[i] !in failing)
    requires next == if sent then s else RemoveFirst(s, s[i])
    requires log == frames + SendLog(Pass(s, i, failing).attempted, message, failing)
    ensures Pass(s, i, failing).remaining == Pass(next, i + 1, failing).remaining
    ensures log == (frames + [Frame(s[i], message, sent)]) + SendLog(Pass(next, i + 1, failing).attempted, message, failing)
  {
    var rest := Pass(next, i + 1, failing).attempted;
    SendLogAppend([s[i]], rest, message, failing);
    assert SendLog([s[i]], message, failing) == [Frame(s[i], message, sent)];
    ConcatAssoc(frames, [Frame(s[i], message, sent)], SendLog(rest, message, failing));
  }

  /** The end of `broadcast`'s loop: once the position is past the list, the
    * list is what the pass leaves and the frames sent are the whole log. */
  lemma BroadcastDone(s: seq<ConnId>, i: nat, failing: set<ConnId>, message: string, frames: seq<Frame>, log: seq<Frame>)
    requires i >= |s|
    requires log == frames + SendLog(Pass(s, i, failing).attempted, message, failing)
    ensures Pass(s, i, failing).remaining == s
    ensures log == frames
  {
    assert frames + [] == frames;
  }

  /** `ConnectionManager`: `active_connections` is the list of registered
    * connections, kept in the order they connected. */
  class ConnectionManager {
    var activeConnections: seq<ConnId>

    /** `__init__`: no connection is registered. */
    constructor ()
      ensures activeConnections == []
    {
      activeConnections := [];
    }

    /** `connect`: the handshake is taken to succeed; the connection is
      * appended at the end and every earlier entry keeps its place. */
    method Connect(c: ConnId)
      modifies this
      ensures activeConnections == old(activeConnections) + [c]
    {
      activeConnections := activeConnections + [c];
    }

    /** `disconnect`: `list.remove`, which removes the first occurrence and
      * raises `ValueError` when the connection is absent, so the caller has to
      * know it is present. */
    method Disconnect(c: ConnId)
      requires c in activeConnections
      modifies this
      ensures activeConnections == RemoveFirst(old(activeConnections), c)
    {
      activeConnections := RemoveFirst(activeConnections, c);
    }

    /** `broadcast`: sends `message` to the connections it visits while
      * walking the list, and disconnects every one whose send fails. The
      * frames returned are the `send_text` calls made, in order. */
    method Broadcast(message: string, failing: set<ConnId>) returns (frames: seq<Frame>)
      modifies this
      ensures activeConnections == Pass(old(activeConnections), 0, failing).remaining
      ensures frames == SendLog(Pass(old(activeConnections), 0, failing).attempted, message, failing)
    {
      frames := [];
      ghost var total := Pass(activeConnections, 0, failing);
      ghost var log := SendLog(total.attempted, message, failing);
      assert log == frames + log;
      var i := 0;
      while i < |activeConnections|
        invariant i <= |activeConnections| + 1
        invariant total.remaining == Pass(activeConnections, i, failing).remaining
        invariant log == frames + SendLog(Pass(activeConnections, i, failing).attempted, message, failing)
        decreases |activeConnections| + 1 - i
      {
        var connection := activeConnections[i];
        var sent := connection !in failing;
        if sent {
          BroadcastStep(activeConnections, i, failing, activeConnections, message, sent, frames, log);
        } else {
          BroadcastStep(activeConnections, i, failing, RemoveFirst(activeConnections, connection), message, sent, frames, log);
          Disconnect(connection);
        }
        frames := frames + [Frame(connection, message, sent)];
        i := i + 1;
      }
      BroadcastDone(activeConnections, i, failing, message, frames, log);
    }
  }
}

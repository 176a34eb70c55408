/** What one pass of `ConnectionManager.broadcast` does, described position by
  * position on the list as it was when the pass began, and the guarantees
  * that follow: a connection whose send failed is gone, one whose send
  * succeeded stays in its place, nobody is sent to twice, and the connection
  * right after a removed one is not visited in that pass.
  *
  * Also the corrected pass that walks a copy of the list (`SnapshotPass`),
  * which reaches every registered connection. */
module Broadcast {
  import opened Lists
  import opened Registry

  /** The list after a pass, by original position: a connection whose send
    * fails is removed and the one after it is kept unvisited (the removal
    * shifts it into the position the iterator has just left). */
  function Kept(s: seq<ConnId>, failing: set<ConnId>): (r: seq<ConnId>)
    ensures |r| <= |s|
    ensures forall c :: c in r ==> c in s
    decreases |s|
  {
    if s == [] then []
    else if s[0] in failing then
      if |s| == 1 then [] else [s[1]] + Kept(s[2..], failing)
    else [s[0]] + Kept(s[1..], failing)
  }

  /** The connections a pass sends to, by original position: after a failed
    * send the next connection is jumped over. */
  function Visited(s: seq<ConnId>, failing: set<ConnId>): (r: seq<ConnId>)
    ensures |r| <= |s|
    ensures forall c :: c in r ==> c in s
    decreases |s|
  {
    if s == [] then []
    else if s[0] in failing then
      [s[0]] + (if |s| == 1 then [] else Visited(s[2..], failing))
    else [s[0]] + Visited(s[1..], failing)
  }

  /** The pass over `p + s` started at position `|p|` leaves `p` alone and
    * treats `s` as the by-position description says. */
  lemma {:induction false} PassFromPrefix(p: seq<ConnId>, s: seq<ConnId>, failing: set<ConnId>)
    requires NoDup(p + s)
    ensures Pass(p + s, |p|, failing) == PassResult(p + Kept(s, failing), Visited(s, failing))
    decreases |s|, 2
  {
    if s == [] {
      assert p + s == p;
    } else if s[0] in failing {
      PassFromPrefixFailing(p, s, failing);
    } else {
      PassFromPrefixSucceeding(p, s, failing);
    }
  }

  /** Removing the element at the boundary of `p + s`. */
  lemma DropAtBoundary(p: seq<ConnId>, s: seq<ConnId>)
    requires NoDup(p + s) && s != []
    ensures (p + s)[|p|] == s[0]
    ensures RemoveFirst(p + s, s[0]) == p + s[1..]
    ensures NoDup(p + s[1..])
  {
    var x := p + s;
    assert x[|p|] == s[0];
    RemoveFirstAt(x, |p|);
    NoDupRemoveAt(x, |p|);
    assert x[..|p|] + x[|p| + 1..] == p + s[1..];
  }

  /** The step of `PassFromPrefix` where the send to `s[0]` fails. */
  lemma {:induction false} PassFromPrefixFailing(p: seq<ConnId>, s: seq<ConnId>, failing: set<ConnId>)
    requires NoDup(p + s) && s != [] && s[0] in failing
    ensures Pass(p + s, |p|, failing) == PassResult(p + Kept(s, failing), Visited(s, failing))
    decreases |s|, 1
  {
    DropAtBoundary(p, s);
    var rest := Pass(p + s[1..], |p| + 1, failing);
    assert Pass(p + s, |p|, failing) == PassResult(rest.remaining, [s[0]] + rest.attempted);
    if |s| == 1 {
      assert p + s[1..] == p;
    } else {
      PassAfterRemoval(p, s, failing);
      assert Kept(s, failing) == [s[1]] + Kept(s[2..], failing);
      assert Visited(s, failing) == [s[0]] + Visited(s[2..], failing);
    }
  }

  /** After `s[0]` is removed from `p + s`, the iterator stands on `s[2]`:
    * `s[1]` now sits at position `|p|`, which the iterator has passed. */
  lemma {:induction false} PassAfterRemoval(p: seq<ConnId>, s: seq<ConnId>, failing: set<ConnId>)
    requires |s| >= 2 && NoDup(p + s[1..])
    ensures Pass(p + s[1..], |p| + 1, failing)
         == PassResult(p + ([s[1]] + Kept(s[2..], failing)), Visited(s[2..], failing))
    decreases |s|, 0
  {
    var p2, u := p + [s[1]], s[2..];
    assert p + s[1..] == p2 + u;
    PassFromPrefix(p2, u, failing);
    ConcatAssoc(p, [s[1]], Kept(u, failing));
  }

  /** The step of `PassFromPrefix` where the send to `s[0]` succeeds. */
  lemma {:induction false} PassFromPrefixSucceeding(p: seq<ConnId>, s: seq<ConnId>, failing: set<ConnId>)
    requires NoDup(p + s) && s != [] && s[0] !in failing
    ensures Pass(p + s, |p|, failing) == PassResult(p + Kept(s, failing), Visited(s, failing))
    decreases |s|, 1
  {
    var p2 := p + [s[0]];
    assert (p + s)[|p|] == s[0];
    assert p + s == p2 + s[1..];
    var rest := Pass(p2 + s[1..], |p2|, failing);
    assert Pass(p + s, |p|, failing) == PassResult(rest.remaining, [s[0]] + rest.attempted);
    PassFromPrefix(p2, s[1..], failing);
    assert Kept(s, failing) == [s[0]] + Kept(s[1..], failing);
    ConcatAssoc(p, [s[0]], Kept(s[1..], failing));
  }

  /** The as-written pass agrees with the by-position description. */
  lemma PassByPosition(s: seq<ConnId>, failing: set<ConnId>)
    requires NoDup(s)
    ensures Pass(s, 0, failing) == PassResult(Kept(s, failing), Visited(s, failing))
  {
    assert [] + s == s;
    PassFromPrefix([], s, failing);
  }

  lemma {:induction false} KeptIsSubseq(s: seq<ConnId>, failing: set<ConnId>)
    ensures IsSubseq(Kept(s, failing), s)
    decreases |s|
  {
    if s != [] {
      if s[0] in failing {
        if |s| > 1 {
          KeptIsSubseq(s[2..], failing);
          assert s[1..][1..] == s[2..];
        }
      } else {
        KeptIsSubseq(s[1..], failing);
      }
    }
  }

  lemma {:induction false} VisitedIsSubseq(s: seq<ConnId>, failing: set<ConnId>)
    ensures IsSubseq(Visited(s, failing), s)
    decreases |s|
  {
    if s != [] {
      if s[0] in failing && |s| > 1 {
        VisitedIsSubseq(s[2..], failing);
        var v := Visited(s, failing);
        assert v[1..] == Visited(s[2..], failing);
        assert s[1..][1..] == s[2..];
        assert IsSubseq(v[1..], s[1..]);
      } else if s[0] !in failing {
        VisitedIsSubseq(s[1..], failing);
      }
    }
  }

  /** A connection survives the pass exactly when it was registered and was
    * not one that was sent to and failed. */
  lemma {:induction false} KeptMembers(s: seq<ConnId>, failing: set<ConnId>)
    requires NoDup(s)
    ensures forall c :: c in Kept(s, failing) <==> c in s && !(c in failing && c in Visited(s, failing))
    decreases |s|
  {
    if s != [] {
      NoDupTail(s);
      var t := s[1..];
      if s[0] in failing && |s| > 1 {
        NoDupTail(t);
        var u := s[2..];
        assert t[1..] == u;
        KeptMembers(u, failing);
        assert s == [s[0], s[1]] + u;
        forall c ensures c in Kept(s, failing) <==> c in s && !(c in failing && c in Visited(s, failing)) {
          if c == s[0] {
            assert c !in u;
          } else if c == s[1] {
            assert c !in u;
          } else {
            assert c in s <==> c in u;
          }
        }
      } else if s[0] !in failing {
        KeptMembers(t, failing);
        assert s == [s[0]] + t;
      }
    }
  }

  /** Position `k` of the original list is visited exactly when position
    * `k - 1` was not a visited connection whose send failed. */
  lemma {:induction false} VisitedPositions(s: seq<ConnId>, failing: set<ConnId>, k: nat)
    requires NoDup(s) && k < |s|
    ensures s[k] in Visited(s, failing) <==> !(0 < k && s[k - 1] in failing && s[k - 1] in Visited(s, failing))
    decreases |s|
  {
    if k > 0 {
      NoDupTail(s);
      var t := s[1..];
      assert s[k] != s[0];
      if s[0] !in failing {
        VisitedPositions(t, failing, k - 1);
        assert s[k] == t[k - 1];
        if k > 1 {
          assert s[k - 1] == t[k - 2] && s[k - 1] != s[0];
        }
      } else {
        NoDupTail(t);
        var u := s[2..];
        assert t[1..] == u;
        assert Visited(s, failing) == [s[0]] + Visited(u, failing);
        assert s[1] !in Visited(s, failing);
        if k > 1 {
          VisitedPositions(u, failing, k - 2);
          assert s[k] == u[k - 2];
          if k > 2 {
            assert s[k - 1] == u[k - 3] && s[k - 1] != s[0];
          }
        }
      }
    }
  }

  /** The guarantees of one broadcast pass over a registry without duplicates. */
  lemma BroadcastGuarantees(s: seq<ConnId>, failing: set<ConnId>)
    requires NoDup(s)
    ensures var r := Pass(s, 0, failing);
      // the list afterwards keeps the original relative order and has no duplicates
      && IsSubseq(r.remaining, s) && NoDup(r.remaining)
      // sends go out in list order and nobody is sent to twice
      && IsSubseq(r.attempted, s) && NoDup(r.attempted)
      // a connection stays exactly when it was not sent to and failed
      && (forall c :: c in r.remaining <==> c in s && !(c in failing && c in r.attempted))
      // the connection right after a removed one is skipped, and only those are
      && (forall k :: 0 <= k < |s| ==>
            (s[k] in r.attempted <==> !(0 < k && s[k - 1] in failing && s[k - 1] in r.attempted)))
  {
    PassByPosition(s, failing);
    KeptIsSubseq(s, failing);
    VisitedIsSubseq(s, failing);
    SubseqNoDup(Kept(s, failing), s);
    SubseqNoDup(Visited(s, failing), s);
    KeptMembers(s, failing);
    forall k | 0 <= k < |s|
      ensures s[k] in Visited(s, failing) <==> !(0 < k && s[k - 1] in failing && s[k - 1] in Visited(s, failing))
    {
      VisitedPositions(s, failing, k);
    }
  }

  lemma {:induction false} PassWithoutFailuresFrom(s: seq<ConnId>, i: nat, failing: set<ConnId>)
    requires i <= |s|
    requires forall c :: c in s ==> c !in failing
    ensures Pass(s, i, failing) == PassResult(s, s[i..])
    decreases |s| - i
  {
    if i < |s| {
      PassWithoutFailuresFrom(s, i + 1, failing);
      assert s[i..] == [s[i]] + s[i + 1..];
    }
  }

  /** When every send succeeds, every registered connection is sent to once,
    * in list order, and the registry is unchanged. */
  lemma PassWithoutFailures(s: seq<ConnId>, failing: set<ConnId>)
    requires forall c :: c in s ==> c !in failing
    ensures Pass(s, 0, failing) == PassResult(s, s)
  {
    PassWithoutFailuresFrom(s, 0, failing);
  }

  /** Three subscribers where the first one's send succeeds and the second
    * one's fails: the pass removes the second and never sends to the third,
    * whatever its state, which therefore stays registered. */
  lemma SkipAfterRemoval(a: ConnId, b: ConnId, c: ConnId, failing: set<ConnId>)
    requires a != b && b != c && a != c
    requires a !in failing && b in failing
    ensures Pass([a, b, c], 0, failing) == PassResult([a, c], [a, b])
  {
    var s := [a, b, c];
    assert NoDup(s);
    PassByPosition(s, failing);
    assert s[1..] == [b, c] && s[1..][2..] == [];
    assert Kept([b, c], failing) == [c] + Kept([], failing);
    assert Visited([b, c], failing) == [b] + Visited([], failing);
  }

  /** The non-failing connections of `s`, in order. */
  function Survivors(s: seq<ConnId>, failing: set<ConnId>): seq<ConnId>
    decreases |s|
  {
    if s == [] then []
    else if s[0] in failing then Survivors(s[1..], failing)
    else [s[0]] + Survivors(s[1..], failing)
  }

  /** The survivors are exactly the non-failing connections, in their order. */
  lemma {:induction false} SurvivorsSpec(s: seq<ConnId>, failing: set<ConnId>)
    ensures forall c :: c in Survivors(s, failing) <==> c in s && c !in failing
    ensures IsSubseq(Survivors(s, failing), s)
    decreases |s|
  {
    if s != [] {
      SurvivorsSpec(s[1..], failing);
      assert s == [s[0]] + s[1..];
    }
  }

  /** The corrected broadcast: iterate over a copy `snapshot` of the list and
    * deregister failures from the live list `current`. */
  function SnapshotPass(snapshot: seq<ConnId>, current: seq<ConnId>, failing: set<ConnId>): (r: PassResult)
    ensures r.attempted == snapshot
    decreases |snapshot|
  {
    if snapshot == [] then PassResult(current, [])
    else
      var c := snapshot[0];
      var next := if c in failing then Deregister(current, c) else current;
      var rest := SnapshotPass(snapshot[1..], next, failing);
      PassResult(rest.remaining, [c] + rest.attempted)
  }

  /** On `p + s`, walking the copy `s` keeps `p` and the survivors of `s`. */
  lemma {:induction false} SnapshotPassFromPrefix(p: seq<ConnId>, s: seq<ConnId>, failing: set<ConnId>)
    requires NoDup(p + s)
    ensures SnapshotPass(s, p + s, failing).remaining == p + Survivors(s, failing)
    decreases |s|, 1
  {
    if s == [] {
      assert p + s == p;
    } else if s[0] in failing {
      SnapshotPassFromPrefixFailing(p, s, failing);
    } else {
      SnapshotPassFromPrefixSucceeding(p, s, failing);
    }
  }

  /** The step of `SnapshotPassFromPrefix` where the send to `s[0]` succeeds. */
  lemma {:induction false} SnapshotPassFromPrefixSucceeding(p: seq<ConnId>, s: seq<ConnId>, failing: set<ConnId>)
    requires NoDup(p + s) && s != [] && s[0] !in failing
    ensures SnapshotPass(s, p + s, failing).remaining == p + Survivors(s, failing)
    decreases |s|, 0
  {
    var p2, t := p + [s[0]], s[1..];
    assert p + s == p2 + t;
    assert SnapshotPass(s, p2 + t, failing).remaining == SnapshotPass(t, p2 + t, failing).remaining;
    SnapshotPassFromPrefix(p2, t, failing);
    var rest := Survivors(t, failing);
    assert Survivors(s, failing) == [s[0]] + rest;
    ConcatAssoc(p, [s[0]], rest);
  }

  /** The step of `SnapshotPassFromPrefix` where the send to `s[0]` fails. */
  lemma {:induction false} SnapshotPassFromPrefixFailing(p: seq<ConnId>, s: seq<ConnId>, failing: set<ConnId>)
    requires NoDup(p + s) && s != [] && s[0] in failing
    ensures SnapshotPass(s, p + s, failing).remaining == p + Survivors(s, failing)
    decreases |s|, 0
  {
    DropAtBoundary(p, s);
    assert Deregister(p + s, s[0]) == p + s[1..];
    assert SnapshotPass(s, p + s, failing).remaining == SnapshotPass(s[1..], p + s[1..], failing).remaining;
    SnapshotPassFromPrefix(p, s[1..], failing);
  }

  /** The corrected pass sends to every registered connection once and leaves
    * exactly the ones whose send succeeded, in their original order. */
  lemma SnapshotPassDeliversToAll(s: seq<ConnId>, failing: set<ConnId>)
    requires NoDup(s)
    ensures SnapshotPass(s, s, failing).attempted == s
    ensures SnapshotPass(s, s, failing).remaining == Survivors(s, failing)
    ensures IsSubseq(SnapshotPass(s, s, failing).remaining, s)
    ensures forall c :: c in SnapshotPass(s, s, failing).remaining <==> c in s && c !in failing
  {
    SnapshotPassWhole(s, failing);
    SurvivorsSpec(s, failing);
  }

  lemma SnapshotPassWhole(s: seq<ConnId>, failing: set<ConnId>)
    requires NoDup(s)
    ensures SnapshotPass(s, s, failing).remaining == Survivors(s, failing)
  {
    var e: seq<ConnId> := [];
    assert e + s == s;
    SnapshotPassFromPrefix(e, s, failing);
    assert e + Survivors(s, failing) == Survivors(s, failing);
  }

  /** On the same three subscribers the corrected pass reaches the third one. */
  lemma SnapshotPassReachesThird(a: ConnId, b: ConnId, c: ConnId, failing: set<ConnId>)
    requires a != b && b != c && a != c
    requires a !in failing && b in failing && c !in failing
    ensures SnapshotPass([a, b, c], [a, b, c], failing) == PassResult([a, c], [a, b, c])
  {
    assert NoDup([a, b, c]);
    SnapshotPassDeliversToAll([a, b, c], failing);
    SurvivorsOfThree(a, b, c, failing);
  }

  lemma SurvivorsOfThree(a: ConnId, b: ConnId, c: ConnId, failing: set<ConnId>)
    requires a !in failing && b in failing && c !in failing
    ensures Survivors([a, b, c], failing) == [a, c]
  {
    var s := [a, b, c];
    assert s[1..] == [b, c] && s[1..][1..] == [c] && [c][1..] == [];
    assert Survivors(s, failing) == [a] + Survivors([b, c], failing);
    assert Survivors([b, c], failing) == Survivors([c], failing);
    assert Survivors([c], failing) == [c] + Survivors([], failing);
  }
}

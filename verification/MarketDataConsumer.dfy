/**
 The trading client's market data consumer, as a class with loops over its two ordered queues.
 */
module MarketDataConsumer {
  import opened Messages
  import opened SnapshotSynthesizer
  import opened ConsumerSpec

  predicate IsLeast(s: set<nat>, k: nat) {
    k in s && forall j :: j in s ==> k <= j
  }

  lemma {:induction false} LeastExists(s: set<nat>)
    requires s != {}
    ensures exists k :: IsLeast(s, k)
    decreases s
  {
    var x :| x in s;
    assert forall j :: j in s ==> j == x || j in s - {x};
    if s - {x} != {} {
      LeastExists(s - {x});
      var y :| IsLeast(s - {x}, y);
      assert IsLeast(s, if x < y then x else y);
    } else {
      assert IsLeast(s, x);
    }
  }

  lemma ContiguousFromZero(q: Queue, first: nat)
    requires q != map[] && IsLeast(q.Keys, first)
    ensures Contiguous(q) ==> first == 0
  {
    if Contiguous(q) {
      assert |q| > 0 && 0 in q;
    }
  }

  class Consumer {
    var next: nat
    var inRecovery: bool
    var snapshotQueued: Queue
    var incrementalQueued: Queue
    var delivered: seq<Update>

    ghost function State(): ConsumerSpec.Consumer
      reads this
    {
      ConsumerSpec.Consumer(next, inRecovery, snapshotQueued, incrementalQueued, delivered)
    }

    constructor ()
      ensures State() == START
    {
      next, inRecovery, snapshotQueued, incrementalQueued, delivered := 1, false, map[], map[], [];
    }

    /** The first loop of checkSnapshotSync, by ascending key: the snapshot must be numbered 0, 1, 2, ... */
    method CollectSnapshot() returns (complete: bool, events: seq<Update>)
      ensures complete <==> Contiguous(snapshotQueued)
      ensures complete ==> events == Payload(Range(snapshotQueued, 0, |snapshotQueued|))
    {
      hide Payload, Range;
      var rest, expected := snapshotQueued.Keys, 0;
      PayloadOfNone(snapshotQueued, 0);
      complete, events := true, [];
      while rest != {}
        invariant forall k :: k in rest <==> k in snapshotQueued && k >= expected
        invariant forall k :: 0 <= k < expected ==> k in snapshotQueued
        invariant |rest| + expected == |snapshotQueued|
        invariant events == Payload(Range(snapshotQueued, 0, expected))
        decreases rest
      {
        LeastExists(rest);
        var k: nat :| IsLeast(rest, k);
        if k != expected {
          assert expected !in snapshotQueued && |rest| > 0;
          return false, events;
        }
        PayloadNext(snapshotQueued, 0, expected);
        if !Marker(snapshotQueued[k]) {
          events := events + [snapshotQueued[k]];
        }
        rest, expected := rest - {k}, expected + 1;
      }
    }

    /** The second loop of checkSnapshotSync, by ascending key: queued incrementals must continue the
        snapshot. */
    method CollectIncrementals(from: nat) returns (complete: bool, events: seq<Update>, n: nat)
      ensures n == FirstMissing(incrementalQueued, from)
      ensures complete <==> forall k :: k in incrementalQueued ==> k <= n
      ensures complete ==> events == Payload(Range(incrementalQueued, from, n))
    {
      hide Payload, Range, FirstMissing;
      PayloadOfNone(incrementalQueued, from);
      var rest := incrementalQueued.Keys;
      complete, events, n := true, [], from;
      while rest != {}
        invariant from <= n && rest <= incrementalQueued.Keys
        invariant forall k :: from <= k < n ==> k in incrementalQueued && k !in rest
        invariant forall k :: k in incrementalQueued && k !in rest ==> k < n
        invariant events == Payload(Range(incrementalQueued, from, n))
        decreases rest
      {
        LeastExists(rest);
        var k: nat :| IsLeast(rest, k);
        if k < n {
          rest := rest - {k};
          continue;
        }
        if k != n {
          FirstMissingIs(incrementalQueued, from, n);
          return false, events, n;
        }
        PayloadNext(incrementalQueued, from, n);
        if !Marker(incrementalQueued[k]) {
          events := events + [incrementalQueued[k]];
        }
        rest, n := rest - {k}, n + 1;
      }
      FirstMissingIs(incrementalQueued, from, n);
    }

    /** checkSnapshotSync. */
    method CheckSnapshotSync()
      modifies this
      ensures State() == Check(old(State()))
    {
      hide Payload, Range, FirstMissing;
      if snapshotQueued == map[] {
        return;
      }
      LeastExists(snapshotQueued.Keys);
      var first :| IsLeast(snapshotQueued.Keys, first);
      ContiguousFromZero(snapshotQueued, first);
      if !snapshotQueued[first].SnapshotStart? {
        snapshotQueued := map[];
        return;
      }
      var complete, events := CollectSnapshot();
      if !complete {
        snapshotQueued := map[];
        return;
      }
      var final := snapshotQueued[|snapshotQueued| - 1];  // the greatest of the keys 0, 1, 2, ...
      if !final.SnapshotEnd? {
        return;
      }
      var more;
      complete, more, next := CollectIncrementals(final.last + 1);
      if !complete {
        snapshotQueued := map[];
        return;
      }
      delivered := delivered + events + more;
      snapshotQueued, incrementalQueued, inRecovery := map[], map[], false;
    }

    /** queueMessage. */
    method QueueMessage(isSnapshot: bool, m: Numbered)
      modifies this
      ensures State() == Enqueue(old(State()), isSnapshot, m)
    {
      if isSnapshot {
        if m.number in snapshotQueued {
          snapshotQueued := map[];
        }
        snapshotQueued := snapshotQueued[m.number := m.update];
      } else {
        incrementalQueued := incrementalQueued[m.number := m.update];
      }
      CheckSnapshotSync();
    }

    /** recvCallback on a buffer of whole messages. */
    method RecvCallback(isSnapshot: bool, ms: seq<Numbered>)
      modifies this
      ensures State() == Packet(old(State()), isSnapshot, ms)
    {
      if isSnapshot && !inRecovery {
        return;
      }
      for i := 0 to |ms|
        invariant ReceiveAll(State(), isSnapshot, ms[i..]) == ReceiveAll(old(State()), isSnapshot, ms)
      {
        var m := ms[i];
        assert ms[i..][1..] == ms[i + 1..];
        var already := inRecovery;
        inRecovery := already || m.number != next;
        if inRecovery {
          if !already {
            snapshotQueued, incrementalQueued := map[], map[];
          }
          QueueMessage(isSnapshot, m);
        } else if !isSnapshot {
          next := next + 1;
          delivered := delivered + [m.update];
        }
      }
    }
  }

  lemma PayloadOfNone(q: Queue, a: nat)
    ensures Payload(Range(q, a, a)) == []
  {
  }

  lemma PayloadNext(q: Queue, a: nat, b: nat)
    requires a <= b && forall k :: a <= k <= b ==> k in q
    ensures Payload(Range(q, a, b + 1)) == Payload(Range(q, a, b)) + (if Marker(q[b]) then [] else [q[b]])
  {
    var us := Range(q, a, b + 1);
    assert us[..|us| - 1] == Range(q, a, b);
  }
}

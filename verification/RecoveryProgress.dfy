/**
 When recovery ends, and when the snapshot queue can be trusted.
 */
module RecoveryProgress {
  import opened Domain
  import opened Messages
  import opened MarketData
  import opened SnapshotSynthesizer
  import opened ConsumerSpec
  import opened Recovery

  /** The snapshot queue between two messages: empty, or, during recovery, an unfinished prefix that
      begins with START. */
  predicate Settled(c: Consumer) {
    var s := c.snapshot;
    s != map[] ==> c.recovering && Contiguous(s) && s[0].SnapshotStart? && !s[|s| - 1].SnapshotEnd?
  }

  lemma CheckSettles(c: Consumer)
    requires c.recovering
    ensures Settled(Check(c))
  {
    hide Range, Payload, FirstMissing;
  }

  /** Whatever arrives, the queue is settled afterwards. */
  lemma ReceiveSettles(c: Consumer, isSnapshot: bool, m: Numbered)
    requires Settled(c)
    ensures Settled(Receive(c, isSnapshot, m))
  {
    hide Check;
    var d := if c.recovering then c else c.(recovering := true, snapshot := map[], incremental := map[]);
    if isSnapshot {
      CheckSettles(d.(snapshot := QueueWith(c, m)));
    } else {
      CheckSettles(d.(incremental := d.incremental[m.number := m.update]));
    }
  }

  // ----- One publication, received in order, with incrementals in between

  /** Exactly the first `i` messages of `p`. */
  predicate Holds(q: Queue, p: seq<Update>, i: nat) {
    && i <= |p| && |q| == i
    && forall n :: 0 <= n < i ==> n in q && q[n] == p[n]
  }

  /** `p` is shaped like a publication after update number `k`. */
  predicate Shaped(p: seq<Update>, k: nat) {
    && |p| >= 2 && p[0].SnapshotStart?
    && (forall i :: 0 <= i < |p| - 1 ==> !p[i].SnapshotEnd?)
    && p[|p| - 1] == SnapshotEnd(k)
  }

  lemma PublicationIsShaped(m: Market, k: nat)
    ensures Shaped(Publication(m, k), k)
  {
    hide Body;
    NoMarkersInBody(m, MAX_TICKERS);
  }

  lemma {:induction false} NoKeyBeyond(q: Queue, i: nat)
    requires |q| == i && forall n :: 0 <= n < i ==> n in q
    ensures forall n :: n in q ==> n < i
    decreases i
  {
    if i > 0 {
      var r := q - {i - 1};
      assert r.Keys == q.Keys - {i - 1};
      assert forall n :: n in q ==> n == i - 1 || n in r;
      NoKeyBeyond(r, i - 1);
    }
  }

  /** START begins afresh, whatever partial snapshot was queued before. */
  lemma StartBegins(c: Consumer, p: seq<Update>, k: nat)
    requires c.recovering && Settled(c) && Shaped(p, k)
    ensures Receive(c, true, Numbered(0, p[0])) == c.(snapshot := map[0 := p[0]])
  {
    hide Range, Payload, FirstMissing;
    assert c.snapshot == map[] || 0 in c.snapshot;
    assert map[][0 := p[0]] == map[0 := p[0]];
  }

  lemma MiddleContinues(c: Consumer, p: seq<Update>, k: nat, i: nat)
    requires c.recovering && Shaped(p, k) && 0 < i < |p| - 1 && Holds(c.snapshot, p, i)
    ensures var c' := Receive(c, true, Numbered(i, p[i]));
      && c'.recovering && c'.incremental == c.incremental && c'.delivered == c.delivered
      && Holds(c'.snapshot, p, i + 1)
  {
    hide Range, Payload, FirstMissing;
    NoKeyBeyond(c.snapshot, i);
    var s := c.snapshot[i := p[i]];
    assert |s| == i + 1 && Contiguous(s) && s[0] == p[0];
  }

  lemma IncrementalWaits(c: Consumer, p: seq<Update>, k: nat, i: nat, m: Numbered)
    requires c.recovering && Shaped(p, k) && i < |p| && Holds(c.snapshot, p, i)
    ensures Receive(c, false, m) == c.(incremental := c.incremental[m.number := m.update])
  {
    hide Range, Payload, FirstMissing;
    assert i > 0 ==> Contiguous(c.snapshot) && c.snapshot[0] == p[0];
  }

  /** The queued incrementals continue update number `k` without a gap. */
  ghost predicate NoGapAfter(q: Queue, k: nat) {
    forall n :: n in q ==> n <= FirstMissing(q, k + 1)
  }

  /** SNAPSHOT_END ends recovery exactly when the queued incrementals have no gap behind the snapshot. */
  lemma EndDecides(c: Consumer, p: seq<Update>, k: nat)
    requires c.recovering && Shaped(p, k) && Holds(c.snapshot, p, |p| - 1)
    ensures Receive(c, true, Numbered(|p| - 1, p[|p| - 1])).recovering <==> !NoGapAfter(c.incremental, k)
  {
    hide Range, Payload, FirstMissing;
    var i := |p| - 1;
    NoKeyBeyond(c.snapshot, i);
    var s := c.snapshot[i := p[i]];
    assert |s| == i + 1 && Contiguous(s) && s[0] == p[0] && s[|s| - 1] == SnapshotEnd(k);
  }

  /** One arrival while a publication is under way. */
  datatype Arrival = NextSnapshot | Incremental(message: Numbered)

  ghost function Deliver(c: Consumer, p: seq<Update>, i: nat, as_: seq<Arrival>): Consumer
    requires i + Snapshots(as_) <= |p|
    decreases as_
  {
    if as_ == [] then c
    else match as_[0]
      case NextSnapshot => Deliver(Receive(c, true, Numbered(i, p[i])), p, i + 1, as_[1..])
      case Incremental(m) => Deliver(Receive(c, false, m), p, i, as_[1..])
  }

  function Snapshots(as_: seq<Arrival>): nat {
    if as_ == [] then 0 else (if as_[0].NextSnapshot? then 1 else 0) + Snapshots(as_[1..])
  }

  function Queued(q: Queue, as_: seq<Arrival>): Queue
    decreases as_
  {
    if as_ == [] then q
    else Queued(if as_[0].Incremental? then q[as_[0].message.number := as_[0].message.update] else q, as_[1..])
  }

  /** From any state of recovery, receiving one publication in order, with any incrementals in
      between, ends recovery at its SNAPSHOT_END if and only if the incrementals queued by then
      continue the snapshot without a gap. */
  lemma {:induction false} RecoveryEnds(c: Consumer, p: seq<Update>, k: nat, i: nat, as_: seq<Arrival>)
    requires c.recovering && Shaped(p, k) && i < |p|
    requires if i == 0 then Settled(c) else Holds(c.snapshot, p, i)
    requires as_ != [] && as_[|as_| - 1].NextSnapshot? && i + Snapshots(as_) == |p|
    ensures Deliver(c, p, i, as_).recovering <==> !NoGapAfter(Queued(c.incremental, as_), k)
    decreases as_
  {
    hide Receive, NoGapAfter, Settled;
    var rest := as_[1..];
    match as_[0]
    case NextSnapshot =>
      var c' := Receive(c, true, Numbered(i, p[i]));
      if i == |p| - 1 {
        NothingButIncrementals(rest);
        EndDecides(c, p, k);
      } else {
        if i == 0 {
          StartBegins(c, p, k);
        } else {
          MiddleContinues(c, p, k, i);
        }
        RecoveryEnds(c', p, k, i + 1, rest);
      }
    case Incremental(m) =>
      if i == 0 {
        IncrementalBeforeStart(c, m);
      } else {
        IncrementalWaits(c, p, k, i, m);
      }
      RecoveryEnds(Receive(c, false, m), p, k, i, rest);
  }

  lemma {:induction false} NothingButIncrementals(as_: seq<Arrival>)
    requires Snapshots(as_) == 0 && (as_ != [] ==> as_[|as_| - 1].NextSnapshot?)
    ensures as_ == []
  {
    if as_ != [] {
      if |as_| > 1 {
        NothingButIncrementals(as_[1..]);
      }
      assert false;
    }
  }

  lemma IncrementalBeforeStart(c: Consumer, m: Numbered)
    requires c.recovering && Settled(c)
    ensures var c' := Receive(c, false, m);
      c'.recovering && Settled(c') && c'.incremental == c.incremental[m.number := m.update]
  {
    hide Range, Payload, FirstMissing;
  }

  // ----- When queued snapshot messages belong to one publication

  /** A snapshot message: position `i` of the publication taken after update number `k`. */
  datatype Source = Source(k: nat, i: nat)

  function MessageOf(h: History, src: Source): Numbered
    requires src.k <= |h| && src.i < |PublicationAt(h, src.k)|
  {
    Numbered(src.i, PublicationAt(h, src.k)[src.i])
  }

  /** Snapshot messages may be lost, repeated and reordered inside a publication, but a switch to
      another publication is first seen through its SNAPSHOT_START. */
  predicate StartsSeen(h: History, current: nat, srcs: seq<Source>)
    decreases srcs
  {
    srcs != [] ==>
      && srcs[0].k <= |h| && srcs[0].i < |PublicationAt(h, srcs[0].k)|
      && (srcs[0].k == current || srcs[0].i == 0)
      && StartsSeen(h, srcs[0].k, srcs[1..])
  }

  function MessagesOf(h: History, current: nat, srcs: seq<Source>): seq<Numbered>
    requires StartsSeen(h, current, srcs)
    decreases srcs
  {
    if srcs == [] then [] else [MessageOf(h, srcs[0])] + MessagesOf(h, srcs[0].k, srcs[1..])
  }

  lemma QueueStaysInPublication(h: History, c: Consumer, current: nat, src: Source)
    requires Settled(c) && From(h, current, c.snapshot)
    requires src.k <= |h| && src.i < |PublicationAt(h, src.k)| && (src.k == current || src.i == 0)
    ensures From(h, src.k, QueueWith(c, MessageOf(h, src)))
  {
    hide Publication;
    assert c.snapshot == map[] || 0 in c.snapshot;
  }

  lemma SnapshotAfter(h: History, c: Consumer, current: nat, src: Source)
    requires Settled(c) && From(h, current, c.snapshot)
    requires src.k <= |h| && src.i < |PublicationAt(h, src.k)| && (src.k == current || src.i == 0)
    ensures From(h, src.k, Receive(c, true, MessageOf(h, src)).snapshot)
  {
    hide PublicationAt, MessageOf, From, Receive, Settled, QueueWith;
    QueueStaysInPublication(h, c, current, src);
    SnapshotIsQueuedOrGone(c, MessageOf(h, src));
    FromNothing(h, src.k);
  }

  lemma SnapshotIsQueuedOrGone(c: Consumer, m: Numbered)
    requires Settled(c)
    ensures Receive(c, true, m).snapshot == QueueWith(c, m) || Receive(c, true, m).snapshot == map[]
  {
    hide Range, Payload, FirstMissing, Contiguous;
  }

  function LastOf(current: nat, srcs: seq<Source>): nat {
    if srcs == [] then current else srcs[|srcs| - 1].k
  }

  /** These snapshot messages may arrive, and leave the queue in the publication of the last one. */
  ghost predicate Unmixed(h: History, c: Consumer, current: nat, srcs: seq<Source>)
    requires StartsSeen(h, current, srcs)
  {
    var c' := ReceiveAll(c, true, MessagesOf(h, current, srcs));
    MayArriveAll(h, c, true, MessagesOf(h, current, srcs)) && Settled(c') && From(h, LastOf(current, srcs), c'.snapshot)
  }

  lemma UnmixedFirst(h: History, c: Consumer, current: nat, srcs: seq<Source>)
    requires srcs != [] && StartsSeen(h, current, srcs) && MayArrive(h, c, true, MessageOf(h, srcs[0]))
    requires Unmixed(h, Receive(c, true, MessageOf(h, srcs[0])), srcs[0].k, srcs[1..])
    ensures Unmixed(h, c, current, srcs)
  {
    hide Publication, MessageOf, Receive, MayArrive, Settled, From;
    var ms := MessagesOf(h, current, srcs);
    assert ms[0] == MessageOf(h, srcs[0]) && ms[1..] == MessagesOf(h, srcs[0].k, srcs[1..]);
    assert LastOf(srcs[0].k, srcs[1..]) == LastOf(current, srcs);
  }

  lemma FirstMayArrive(h: History, c: Consumer, current: nat, src: Source)
    requires Settled(c) && From(h, current, c.snapshot)
    requires src.k <= |h| && src.i < |PublicationAt(h, src.k)| && (src.k == current || src.i == 0)
    ensures MayArrive(h, c, true, MessageOf(h, src))
  {
    hide Publication, Settled, From, QueueWith;
    QueueStaysInPublication(h, c, current, src);
  }

  /** Inside one packet: if every switch of publication is seen through its SNAPSHOT_START, the queue
      never mixes publications. */
  lemma {:induction false} StartsPreventMixing(h: History, c: Consumer, current: nat, srcs: seq<Source>)
    requires Settled(c) && From(h, current, c.snapshot) && StartsSeen(h, current, srcs)
    ensures Unmixed(h, c, current, srcs)
    decreases srcs
  {
    if srcs != [] {
      hide Publication, MessageOf, Receive, MayArrive, Settled, From, Unmixed;
      FirstMayArrive(h, c, current, srcs[0]);
      ReceiveSettles(c, true, MessageOf(h, srcs[0]));
      SnapshotAfter(h, c, current, srcs[0]);
      StartsPreventMixing(h, Receive(c, true, MessageOf(h, srcs[0])), srcs[0].k, srcs[1..]);
      UnmixedFirst(h, c, current, srcs);
    }
  }

  // ----- Runs on the wire

  /** Updates by number and snapshot messages by source, as a lossy network delivers them. */
  datatype WireEvent =
    | Emitted(update: Update)
    | Increments(numbers: seq<nat>)
    | Snapshots(current: nat, sources: seq<Source>)

  function IncrementsOf(h: History, ns: seq<nat>): (ms: seq<Numbered>)
    requires forall i :: 0 <= i < |ns| ==> 1 <= ns[i] <= |h|
    decreases ns
  {
    if ns == [] then [] else [Numbered(ns[0], h[ns[0] - 1])] + IncrementsOf(h, ns[1..])
  }

  /** `current` is the publication whose messages were seen last. A packet goes on with it or begins another
      one with its SNAPSHOT_START; only a consumer whose snapshot queue is empty, as when it has just joined,
      may be given a packet from the middle of another publication. */
  ghost predicate OnWire(s: System, current: nat, e: WireEvent) {
    match e
    case Emitted(u) => Trades(u) && LegalAt(StateAt(s.history, |s.history|), u)
    case Increments(ns) => forall i :: 0 <= i < |ns| ==> 1 <= ns[i] <= |s.history|
    case Snapshots(k, srcs) =>
      StartsSeen(s.history, k, srcs) && k <= |s.history| && (s.consumer.snapshot == map[] || k == current)
  }

  ghost function EventOf(s: System, current: nat, e: WireEvent): Event
    requires OnWire(s, current, e)
  {
    match e
    case Emitted(u) => Emit(u)
    case Increments(ns) => Arrive(false, IncrementsOf(s.history, ns))
    case Snapshots(k, srcs) => Arrive(true, MessagesOf(s.history, k, srcs))
  }

  function Follow(current: nat, e: WireEvent): nat {
    if e.Snapshots? then LastOf(e.current, e.sources) else current
  }

  ghost predicate WireRun(s: System, current: nat, es: seq<WireEvent>)
    decreases es
  {
    es != [] ==> OnWire(s, current, es[0]) && WireRun(Perform(s, EventOf(s, current, es[0])), Follow(current, es[0]), es[1..])
  }

  ghost function ExecuteWire(s: System, current: nat, es: seq<WireEvent>): System
    requires WireRun(s, current, es)
    decreases es
  {
    if es == [] then s else ExecuteWire(Perform(s, EventOf(s, current, es[0])), Follow(current, es[0]), es[1..])
  }

  ghost predicate Tracked(s: System, current: nat) {
    && Safe(s.history, s.consumer) && Settled(s.consumer)
    && current <= |s.history| && From(s.history, current, s.consumer.snapshot)
  }

  /** Receiving these updates is possible, and keeps the snapshot queue settled and what it was, or empty. */
  ghost predicate Passed(h: History, c: Consumer, ms: seq<Numbered>) {
    var c' := ReceiveAll(c, false, ms);
    MayArriveAll(h, c, false, ms) && Settled(c') && (c'.snapshot == c.snapshot || c'.snapshot == map[])
  }

  lemma PassedFirst(h: History, c: Consumer, m: Numbered, ms: seq<Numbered>)
    requires MayArrive(h, c, false, m) && Passed(h, Receive(c, false, m), ms)
    requires Receive(c, false, m).snapshot == c.snapshot || Receive(c, false, m).snapshot == map[]
    ensures Passed(h, c, [m] + ms)
  {
    hide Receive, MayArrive, Settled;
    assert ([m] + ms)[1..] == ms;
  }

  lemma PassedNone(h: History, c: Consumer)
    requires Settled(c)
    ensures Passed(h, c, [])
  {
    hide Receive, Settled;
  }

  lemma {:induction false} IncrementsMayArrive(h: History, c: Consumer, ns: seq<nat>)
    requires Settled(c) && forall i :: 0 <= i < |ns| ==> 1 <= ns[i] <= |h|
    ensures Passed(h, c, IncrementsOf(h, ns))
    decreases ns
  {
    hide Settled, Receive, Passed;
    if ns == [] {
      PassedNone(h, c);
    } else {
      var m := Numbered(ns[0], h[ns[0] - 1]);
      ReceiveSettles(c, false, m);
      IncrementKeepsSnapshot(c, m);
      IncrementsMayArrive(h, Receive(c, false, m), ns[1..]);
      PassedFirst(h, c, m, IncrementsOf(h, ns[1..]));
    }
  }

  lemma IncrementKeepsSnapshot(c: Consumer, m: Numbered)
    ensures Receive(c, false, m).snapshot == c.snapshot || Receive(c, false, m).snapshot == map[]
  {
    hide Range, Payload, FirstMissing;
  }

  lemma WireStepKeepsTracked(s: System, current: nat, e: WireEvent)
    requires Tracked(s, current) && OnWire(s, current, e)
    ensures Tracked(Perform(s, EventOf(s, current, e)), Follow(current, e))
  {
    hide Publication, Safe, Settled, MayArriveAll, ReceiveAll, From, LegalRun, Fold;
    var ev := EventOf(s, current, e);
    match e
    case Emitted(u) =>
      PerformKeepsSafe(s, ev);
      FromLonger(s.history, u, current, s.consumer.snapshot);
    case Increments(ns) =>
      IncrementsMayArrive(s.history, s.consumer, ns);
      PerformKeepsSafe(s, ev);
      FromNothing(s.history, current);
    case Snapshots(k, srcs) =>
      FromNothing(s.history, current);
      FromNothing(s.history, k);
      StartsPreventMixing(s.history, s.consumer, k, srcs);
      PerformKeepsSafe(s, ev);
      IdleHasNoQueue(s.consumer);
      LastOfIsEmitted(s.history, k, srcs);
      FromNothing(s.history, LastOf(k, srcs));
  }

  lemma FromLonger(h: History, u: Update, k: nat, s: Queue)
    requires From(h, k, s)
    ensures From(h + [u], k, s)
  {
    LongerHistory(h, u, k);
  }

  lemma FromNothing(h: History, k: nat)
    requires k <= |h|
    ensures From(h, k, map[])
  {
  }

  lemma IdleHasNoQueue(c: Consumer)
    requires Settled(c)
    ensures !c.recovering ==> c.snapshot == map[]
  {
  }

  lemma {:induction false} LastOfIsEmitted(h: History, current: nat, srcs: seq<Source>)
    requires StartsSeen(h, current, srcs) && current <= |h|
    ensures LastOf(current, srcs) <= |h|
    decreases srcs
  {
    if srcs != [] {
      LastOfIsEmitted(h, srcs[0].k, srcs[1..]);
    }
  }

  lemma {:induction false} WireRunIsTracked(s: System, current: nat, es: seq<WireEvent>) returns (k: nat)
    requires Tracked(s, current) && WireRun(s, current, es)
    ensures Tracked(ExecuteWire(s, current, es), k)
    decreases es
  {
    hide Tracked, Perform, EventOf, Follow;
    if es != [] {
      WireStepKeepsTracked(s, current, es[0]);
      k := WireRunIsTracked(Perform(s, EventOf(s, current, es[0])), Follow(current, es[0]), es[1..]);
    } else {
      k := current;
    }
  }

  /** Safety on the wire: messages may be lost, repeated and reordered; as long as a switch to another
      snapshot publication is first seen through its SNAPSHOT_START, the consumer outside recovery has
      delivered exactly the exchange's market after update next - 1. */
  lemma WireIsSafe(es: seq<WireEvent>)
    requires WireRun(System([], START), 0, es)
    ensures var s := ExecuteWire(System([], START), 0, es);
      && LegalRun(EMPTY, s.consumer.delivered)
      && (!s.consumer.recovering ==>
            && 1 <= s.consumer.next <= |s.history| + 1
            && Fold(EMPTY, s.consumer.delivered) == StateAt(s.history, s.consumer.next - 1))
  {
    assert Tracked(System([], START), 0);
    var k := WireRunIsTracked(System([], START), 0, es);
  }
}

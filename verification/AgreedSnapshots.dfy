/**
 Snapshots over a network that may lose anything, the SNAPSHOT_START of a publication included, as long
 as publications arrive in the order they were sent. The queue can then mix publications; comparing the
 numbers in its SNAPSHOT_START and SNAPSHOT_END tells exactly whether it did.
 */
module AgreedSnapshots {
  import opened Messages
  import opened MarketData
  import opened SnapshotSynthesizer
  import opened ConsumerSpec
  import opened Recovery
  import opened RecoveryProgress

  // ----- The guard

  /** Message i of queue `s` is message i of the publication after update `k`. */
  predicate IsFrom(h: History, s: Queue, i: nat, k: nat) {
    i in s && k <= |h| && i < |PublicationAt(h, k)| && s[i] == PublicationAt(h, k)[i]
  }

  /** Message i of queue `s` is from the publication after update ks[i]; the publications come in order, none
      after `bound`. */
  ghost predicate Sources(h: History, s: Queue, ks: seq<nat>, bound: nat) {
    && |ks| == |s| && bound <= |h|
    && (forall i {:trigger ks[i]} :: 0 <= i < |ks| ==> ks[i] <= bound && IsFrom(h, s, i, ks[i]))
    && (forall i, j :: 0 <= i < j < |ks| ==> ks[i] <= ks[j])
  }

  ghost predicate Sourced(h: History, s: Queue, bound: nat) {
    exists ks :: Sources(h, s, ks, bound)
  }

  predicate Complete(s: Queue) {
    s != map[] && Contiguous(s) && s[0].SnapshotStart? && s[|s| - 1].SnapshotEnd?
  }

  /** A complete snapshot names the same update in its SNAPSHOT_START and its SNAPSHOT_END. The source does
      not make this comparison. */
  predicate Agreed(s: Queue) {
    Complete(s) ==> s[0].last == s[|s| - 1].last
  }

  /** The comparison is exact: a complete snapshot comes from one publication if and only if it passes. */
  lemma AgreedIffOnePublication(h: History, s: Queue, bound: nat)
    requires Sourced(h, s, bound) && Complete(s)
    ensures Agreed(s) <==> OnePublication(h, s)
  {
    hide Publication, StateAt;
    var ks :| Sources(h, s, ks, bound);
    var a, b := ks[0], ks[|ks| - 1];
    StartCarriesNumber(StateAt(h, a), a);
    EndIsLast(StateAt(h, b), b, |s| - 1);
    if Agreed(s) {
      NoKeyBeyond(s, |s|);
      forall n | n in s ensures n < |PublicationAt(h, a)| && s[n] == PublicationAt(h, a)[n] {
        assert ks[0] <= ks[n] <= ks[|ks| - 1];
      }
      assert From(h, a, s);
    }
    if k :| From(h, k, s) {
      StartCarriesNumber(StateAt(h, k), k);
      EndIsLast(StateAt(h, k), k, |s| - 1);
    }
  }

  lemma StartCarriesNumber(m: Market, k: nat)
    ensures |Publication(m, k)| >= 2 && Publication(m, k)[0] == SnapshotStart(k)
  {
  }

  // ----- What every message keeps

  /** Safe but for the snapshot queue, which may be a mixture. */
  ghost predicate Ordered(h: History, c: Consumer, bound: nat) {
    bound <= |h| && Safe(h, c.(snapshot := map[])) && Settled(c) && Sourced(h, c.snapshot, bound)
  }

  lemma NothingSourced(h: History, bound: nat)
    requires bound <= |h|
    ensures Sourced(h, map[], bound)
  {
    assert Sources(h, map[], [], bound);
  }

  lemma SourcedLater(h: History, s: Queue, bound: nat, later: nat)
    requires Sourced(h, s, bound) && bound <= later <= |h|
    ensures Sourced(h, s, later)
  {
    hide IsFrom;
    var ks :| Sources(h, s, ks, bound);
    forall i | 0 <= i < |ks| ensures ks[i] <= later && IsFrom(h, s, i, ks[i]) {
    }
    assert Sources(h, s, ks, later);
  }

  /** A queue that is contiguous after a message has come in is sourced by one more publication. */
  lemma SourcedExtends(h: History, c: Consumer, bound: nat, src: Source)
    requires Settled(c) && Sourced(h, c.snapshot, bound) && bound <= src.k <= |h| && src.i < |PublicationAt(h, src.k)|
    requires Contiguous(QueueWith(c, MessageOf(h, src)))
    ensures Sourced(h, QueueWith(c, MessageOf(h, src)), src.k)
  {
    hide PublicationAt;
    var q, q' := c.snapshot, QueueWith(c, MessageOf(h, src));
    if src.i in q {
      assert |q'| == 1 && 0 in q';
      assert Sources(h, q', [src.k], src.k);
    } else {
      var ks :| Sources(h, q, ks, bound);
      assert |q'| == |q| + 1;
      NoKeyBeyond(q', |q'|);
      NoKeyBeyond(q, |q|);
      assert |q| in q' && |q| !in q;
      assert src.i == |q|;
      assert Sources(h, q', ks + [src.k], src.k);
    }
  }

  lemma SnapshotKeepsOrdered(h: History, c: Consumer, bound: nat, src: Source)
    requires Ordered(h, c, bound) && bound <= src.k <= |h| && src.i < |PublicationAt(h, src.k)|
    requires Agreed(QueueWith(c, MessageOf(h, src)))
    ensures Ordered(h, Receive(c, true, MessageOf(h, src)), src.k)
  {
    hide PublicationAt, Safe, Sourced, Check, Agreed, Completes, Complete;
    var m := MessageOf(h, src);
    if !c.recovering && m.number == c.next {
      SourcedLater(h, c.snapshot, bound, src.k);
    } else {
      var d := if c.recovering then c else c.(recovering := true, snapshot := map[], incremental := map[]);
      RestartIsOrdered(h, c, bound);
      var q := QueueWith(c, m);
      assert Receive(c, true, m) == Check(d.(snapshot := q));
      CheckedIsOrdered(h, d, bound, src, q);
    }
  }

  lemma RestartIsOrdered(h: History, c: Consumer, bound: nat)
    requires Ordered(h, c, bound)
    ensures !c.recovering ==> c.snapshot == map[] && Safe(h, c.(recovering := true, snapshot := map[], incremental := map[]))
  {
    hide Fold, LegalRun;
    assert From(h, 0, map[]);
  }

  lemma CheckedIsOrdered(h: History, d: Consumer, bound: nat, src: Source, q: Queue)
    requires d.recovering && Safe(h, d.(snapshot := map[])) && Settled(d) && Sourced(h, d.snapshot, bound)
    requires bound <= src.k <= |h| && src.i < |PublicationAt(h, src.k)|
    requires q == QueueWith(d, MessageOf(h, src)) && Agreed(q)
    ensures Ordered(h, Check(d.(snapshot := q)), src.k)
  {
    hide PublicationAt, Fold, LegalRun, Check, LegalHistory, Range, Payload, FirstMissing, Sourced;
    var e := d.(snapshot := q);
    CheckSettles(e);
    NothingSourced(h, src.k);
    if Completes(e) {
      SourcedExtends(h, d, bound, src);
      AgreedIffOnePublication(h, q, src.k);
      CompletionIsSafe(h, e);
      CheckCompletes(e);
    } else {
      CheckWaits(e);
      if Check(e).snapshot != map[] {
        SourcedExtends(h, d, bound, src);
      }
      assert From(h, 0, map[]);
    }
  }

  lemma UpdateKeepsOrdered(h: History, c: Consumer, bound: nat, m: Numbered)
    requires Ordered(h, c, bound) && 1 <= m.number <= |h| && m.update == h[m.number - 1]
    ensures Ordered(h, Receive(c, false, m), bound)
  {
    hide PublicationAt, Safe, Sourced, Range, Payload, FirstMissing;
    var c0 := c.(snapshot := map[]);
    ReceiveKeepsSafe(h, c0, false, m);
    ReceiveSettles(c, false, m);
    NothingSourced(h, bound);
    assert Receive(c, false, m).(snapshot := map[]) == Receive(c0, false, m);
    assert Receive(c, false, m).snapshot == c.snapshot || Receive(c, false, m).snapshot == map[];
  }

  // ----- Whole runs

  /** What the network delivers: emissions, packets of updates by number, packets of snapshot messages by
      source. */
  datatype AirEvent =
    | Emission(update: Update)
    | Updates(numbers: seq<nat>)
    | Pieces(sources: seq<Source>)

  /** Genuine snapshot messages: any may be missing, and none belongs to an earlier publication than the
      one before it. */
  predicate InOrder(h: History, current: nat, srcs: seq<Source>)
    decreases srcs
  {
    srcs != [] ==>
      && current <= srcs[0].k <= |h| && srcs[0].i < |PublicationAt(h, srcs[0].k)|
      && InOrder(h, srcs[0].k, srcs[1..])
  }

  function PiecesOf(h: History, current: nat, srcs: seq<Source>): seq<Numbered>
    requires InOrder(h, current, srcs)
    decreases srcs
  {
    if srcs == [] then [] else [MessageOf(h, srcs[0])] + PiecesOf(h, srcs[0].k, srcs[1..])
  }

  ghost predicate OnAir(s: System, current: nat, e: AirEvent) {
    match e
    case Emission(u) => Trades(u) && LegalAt(StateAt(s.history, |s.history|), u)
    case Updates(ns) => forall i :: 0 <= i < |ns| ==> 1 <= ns[i] <= |s.history|
    case Pieces(srcs) => InOrder(s.history, current, srcs)
  }

  ghost function Broadcast(s: System, current: nat, e: AirEvent): System
    requires OnAir(s, current, e)
  {
    match e
    case Emission(u) => Perform(s, Emit(u))
    case Updates(ns) => Perform(s, Arrive(false, IncrementsOf(s.history, ns)))
    case Pieces(srcs) => Perform(s, Arrive(true, PiecesOf(s.history, current, srcs)))
  }

  function Onwards(current: nat, e: AirEvent): nat {
    if e.Pieces? then LastOf(current, e.sources) else current
  }

  ghost predicate AirRun(s: System, current: nat, es: seq<AirEvent>)
    decreases es
  {
    es != [] ==> OnAir(s, current, es[0]) && AirRun(Broadcast(s, current, es[0]), Onwards(current, es[0]), es[1..])
  }

  ghost function Aired(s: System, current: nat, es: seq<AirEvent>): System
    requires AirRun(s, current, es)
    decreases es
  {
    if es == [] then s else Aired(Broadcast(s, current, es[0]), Onwards(current, es[0]), es[1..])
  }

  /** Every snapshot that a packet completes passes the comparison. */
  ghost predicate AgreedPieces(h: History, current: nat, c: Consumer, srcs: seq<Source>)
    requires InOrder(h, current, srcs)
    decreases srcs
  {
    srcs != [] ==>
      && Agreed(QueueWith(c, MessageOf(h, srcs[0])))
      && AgreedPieces(h, srcs[0].k, Receive(c, true, MessageOf(h, srcs[0])), srcs[1..])
  }

  ghost predicate AgreedRun(s: System, current: nat, es: seq<AirEvent>)
    requires AirRun(s, current, es)
    decreases es
  {
    es != [] ==>
      && (es[0].Pieces? && s.consumer.recovering ==> AgreedPieces(s.history, current, s.consumer, es[0].sources))
      && AgreedRun(Broadcast(s, current, es[0]), Onwards(current, es[0]), es[1..])
  }

  lemma {:induction false} PiecesKeepOrdered(h: History, c: Consumer, current: nat, srcs: seq<Source>)
    requires Ordered(h, c, current) && InOrder(h, current, srcs) && AgreedPieces(h, current, c, srcs)
    ensures Ordered(h, ReceiveAll(c, true, PiecesOf(h, current, srcs)), LastOf(current, srcs))
    decreases srcs
  {
    hide Ordered, Receive, Agreed, PublicationAt, MessageOf, PiecesOf, ReceiveAll, LastOf;
    PieceSplit(h, c, current, srcs);
    if srcs != [] {
      SnapshotKeepsOrdered(h, c, current, srcs[0]);
      PiecesKeepOrdered(h, Receive(c, true, MessageOf(h, srcs[0])), srcs[0].k, srcs[1..]);
    }
  }

  lemma PieceSplit(h: History, c: Consumer, current: nat, srcs: seq<Source>)
    requires InOrder(h, current, srcs)
    ensures srcs == [] ==> ReceiveAll(c, true, PiecesOf(h, current, srcs)) == c && LastOf(current, srcs) == current
    ensures srcs != [] ==>
      && ReceiveAll(c, true, PiecesOf(h, current, srcs)) ==
           ReceiveAll(Receive(c, true, MessageOf(h, srcs[0])), true, PiecesOf(h, srcs[0].k, srcs[1..]))
      && LastOf(current, srcs) == LastOf(srcs[0].k, srcs[1..])
  {
    hide Receive, PublicationAt, MessageOf;
    if srcs != [] {
      var ms := PiecesOf(h, current, srcs);
      assert ms[0] == MessageOf(h, srcs[0]) && ms[1..] == PiecesOf(h, srcs[0].k, srcs[1..]);
    }
  }

  lemma {:induction false} UpdatesKeepOrdered(h: History, c: Consumer, current: nat, ns: seq<nat>)
    requires Ordered(h, c, current) && forall i :: 0 <= i < |ns| ==> 1 <= ns[i] <= |h|
    ensures Ordered(h, ReceiveAll(c, false, IncrementsOf(h, ns)), current)
    decreases ns
  {
    if ns != [] {
      hide Ordered, Receive;
      var m := Numbered(ns[0], h[ns[0] - 1]);
      UpdateKeepsOrdered(h, c, current, m);
      UpdatesKeepOrdered(h, Receive(c, false, m), current, ns[1..]);
      var ms := IncrementsOf(h, ns);
      assert ms[0] == m && ms[1..] == IncrementsOf(h, ns[1..]);
    }
  }

  lemma EmissionKeepsOrdered(h: History, c: Consumer, current: nat, u: Update)
    requires Ordered(h, c, current) && Trades(u) && LegalAt(StateAt(h, |h|), u)
    ensures Ordered(h + [u], c, current)
  {
    hide Safe, LegalAt;
    EmitKeepsSafe(h, c.(snapshot := map[]), u);
    var ks :| Sources(h, c.snapshot, ks, current);
    forall i | 0 <= i < |ks| ensures PublicationAt(h + [u], ks[i]) == PublicationAt(h, ks[i]) {
      LongerHistory(h, u, ks[i]);
    }
    assert Sources(h + [u], c.snapshot, ks, current);
  }

  lemma BroadcastKeepsOrdered(s: System, current: nat, e: AirEvent)
    requires Ordered(s.history, s.consumer, current) && OnAir(s, current, e)
    requires e.Pieces? && s.consumer.recovering ==> AgreedPieces(s.history, current, s.consumer, e.sources)
    ensures var s' := Broadcast(s, current, e); Ordered(s'.history, s'.consumer, Onwards(current, e))
  {
    hide Safe, Settled, ReceiveAll, LegalAt, InOrder, AgreedPieces, PiecesOf, IncrementsOf, Sourced;
    match e
    case Emission(u) => EmissionKeepsOrdered(s.history, s.consumer, current, u);
    case Updates(ns) => UpdatesKeepOrdered(s.history, s.consumer, current, ns);
    case Pieces(srcs) =>
      if s.consumer.recovering {
        PiecesKeepOrdered(s.history, s.consumer, current, srcs);
      } else {
        LastInOrder(s.history, current, srcs);
        SourcedLater(s.history, s.consumer.snapshot, current, LastOf(current, srcs));
      }
  }

  lemma {:induction false} LastInOrder(h: History, current: nat, srcs: seq<Source>)
    requires InOrder(h, current, srcs) && current <= |h|
    ensures current <= LastOf(current, srcs) <= |h|
    decreases srcs
  {
    if srcs != [] {
      LastInOrder(h, srcs[0].k, srcs[1..]);
    }
  }

  lemma {:induction false} RunKeepsOrdered(s: System, current: nat, es: seq<AirEvent>) returns (k: nat)
    requires Ordered(s.history, s.consumer, current) && AirRun(s, current, es) && AgreedRun(s, current, es)
    ensures var s' := Aired(s, current, es); Ordered(s'.history, s'.consumer, k)
    decreases es
  {
    k := current;
    if es != [] {
      hide Ordered, Broadcast, Onwards, AgreedPieces;
      BroadcastKeepsOrdered(s, current, es[0]);
      k := RunKeepsOrdered(Broadcast(s, current, es[0]), Onwards(current, es[0]), es[1..]);
    }
  }

  lemma StartIsOrdered()
    ensures Ordered([], START, 0)
  {
    NothingSourced([], 0);
    assert From([], 0, map[]);
  }

  /** With no SNAPSHOT_START assumed to arrive: in every run in which each completed snapshot carries one
      number in its SNAPSHOT_START and SNAPSHOT_END, the consumer outside recovery has delivered exactly the
      exchange's market after update next - 1. */
  lemma AgreedRunIsSafe(es: seq<AirEvent>)
    requires AirRun(System([], START), 0, es) && AgreedRun(System([], START), 0, es)
    ensures var s := Aired(System([], START), 0, es);
      && LegalRun(EMPTY, s.consumer.delivered)
      && (!s.consumer.recovering ==>
            && 1 <= s.consumer.next <= |s.history| + 1
            && Fold(EMPTY, s.consumer.delivered) == StateAt(s.history, s.consumer.next - 1))
  {
    hide AirRun, AgreedRun, Aired;
    StartIsOrdered();
    var k := RunKeepsOrdered(System([], START), 0, es);
  }
}

/**
 A run from the start in which the client ends up with a market the exchange never had: one order is
 added, cancelled, and another one added. The first update is lost, so the consumer recovers; of the
 snapshot after update 1 it gets everything but the SNAPSHOT_END, and of the one after update 3 nothing but
 the SNAPSHOT_END.
 */
module MixingExample {
  import opened Domain
  import opened Messages
  import opened MarketData
  import opened SnapshotSynthesizer
  import opened ConsumerSpec
  import opened Recovery
  import opened RecoveryProgress
  import opened Overwriting
  import opened MixedSnapshots
  import opened AgreedSnapshots
  import opened OrderlyDelivery

  // ----- Equally long snapshots

  lemma OrdersBelowCount(o: Orders, n: nat)
    ensures |OrdersBelow(o, 0)| == 0
    ensures n > 0 ==> |OrdersBelow(o, n)| == |OrdersBelow(o, n - 1)| + (if n - 1 in o then 1 else 0)
  {
    OrdersBelowStep(o, n);
    if n > 0 && n - 1 in o {
      assert OrdersBelow(o, n) == OrdersBelow(o, n - 1)[n - 1 := o[n - 1]];
    }
  }

  lemma {:induction false} AddsLength(o: Orders, t: nat, n: nat)
    ensures |AddsBelow(o, t, n)| == |OrdersBelow(o, n)|
  {
    hide OrdersBelow;
    OrdersBelowCount(o, n);
    if n > 0 {
      AddsLength(o, t, n - 1);
    }
  }

  lemma PartLength(o: Orders, t: nat)
    requires PublicBook(o)
    ensures |AddsBelow(o, t, MAX_ORDER_IDS)| == |o|
  {
    AddsLength(o, t, MAX_ORDER_IDS);
    assert OrdersBelow(o, MAX_ORDER_IDS) == o;
  }

  /** Snapshots of markets with equally many orders per ticker are equally long. */
  lemma {:induction false} BodiesOfEqualLength(m: Market, m': Market, n: nat)
    requires n <= MAX_TICKERS && PublicMarket(m) && PublicMarket(m')
    requires forall t :: 0 <= t < MAX_TICKERS ==> |m[t]| == |m'[t]|
    ensures |Body(m, n)| == |Body(m', n)|
  {
    hide AddsBelow, PublicBook;
    if n > 0 {
      BodiesOfEqualLength(m, m', n - 1);
      PartLength(m[n - 1], n - 1);
      PartLength(m'[n - 1], n - 1);
      assert |TickerPart(m, n - 1)| == 1 + |m[n - 1]| && |TickerPart(m', n - 1)| == 1 + |m'[n - 1]|;
    }
  }

  // ----- The history

  const FIRST := Resting(Public(1), Buy, 10, 5, 1)
  const SECOND := Resting(Public(2), Buy, 11, 7, 1)
  const EXAMPLE: History := [Add(0, 1, Buy, 10, 5, 1), Cancel(0, 1, Buy, 10, 0, 1), Add(0, 2, Buy, 11, 7, 1)]

  lemma OneIsRoomy(id: nat, r: Resting)
    ensures Roomy(map[id := r])
  {
    var o: Orders := map[];
    assert Prices(o) == {};
    PricesWith(o, id, r);
    assert o[id := r] == map[id := r];
  }

  lemma ExampleStates()
    ensures LegalHistory(EXAMPLE)
    ensures StateAt(EXAMPLE, 1) == EMPTY[0 := map[1 := FIRST]]
    ensures StateAt(EXAMPLE, 3) == EMPTY[0 := map[2 := SECOND]]
  {
    hide Roomy;
    OneIsRoomy(1, FIRST);
    OneIsRoomy(2, SECOND);
    var a, b, d := EXAMPLE[0], EXAMPLE[1], EXAMPLE[2];
    var m1, m2, m3 := EMPTY[0 := map[1 := FIRST]], EMPTY, EMPTY[0 := map[2 := SECOND]];
    assert ApplyAt(EMPTY, a) == m1 && ApplyAt(m1, b) == m2 && ApplyAt(m2, d) == m3 by {
      assert map[1 := FIRST] - {1} == map[];
    }
    FoldOne(EMPTY, a);
    FoldOne(m1, b);
    FoldOne(m2, d);
    FoldConcat(EMPTY, [a], [b]);
    FoldConcat(EMPTY, [a] + [b], [d]);
    assert EXAMPLE[..1] == [a] && EXAMPLE[..3] == [a] + [b] + [d] == EXAMPLE;
  }

  lemma ExampleLengths()
    ensures |PublicationAt(EXAMPLE, 1)| == |PublicationAt(EXAMPLE, 3)| >= 2
    ensures PublicationAt(EXAMPLE, 3)[|PublicationAt(EXAMPLE, 3)| - 1] == SnapshotEnd(3)
  {
    hide Body;
    ExampleStates();
    StateAtIsPublic(EXAMPLE, 1);
    StateAtIsPublic(EXAMPLE, 3);
    ExampleSizes(StateAt(EXAMPLE, 1), StateAt(EXAMPLE, 3));
    BodiesOfEqualLength(StateAt(EXAMPLE, 1), StateAt(EXAMPLE, 3), MAX_TICKERS);
  }

  lemma ExampleSizes(m1: Market, m3: Market)
    requires m1 == EMPTY[0 := map[1 := FIRST]] && m3 == EMPTY[0 := map[2 := SECOND]]
    ensures forall t :: 0 <= t < MAX_TICKERS ==> |m1[t]| == |m3[t]|
    ensures !AllReconciled(m1, m3, [])
  {
    assert !Reconciled(m1, m3, [], 0, 1);
  }

  // ----- The run

  /** These messages may arrive, and leave the consumer recovering with the first `i` messages of the
      publication after update `k` in its snapshot queue. */
  ghost predicate QueuesUp(h: History, c: Consumer, current: nat, srcs: seq<Source>, k: nat, i: nat)
    requires k <= |h|
  {
    && InOrder(h, current, srcs) && LastOf(current, srcs) == (if srcs == [] then current else k)
    && var c' := ReceiveAll(c, true, PiecesOf(h, current, srcs));
       && c'.recovering && c'.incremental == c.incremental && c'.delivered == c.delivered
       && Holds(c'.snapshot, PublicationAt(h, k), i)
  }

  lemma QueuesUpNone(h: History, c: Consumer, current: nat, k: nat, i: nat)
    requires k <= |h| && c.recovering && Holds(c.snapshot, PublicationAt(h, k), i)
    ensures QueuesUp(h, c, current, [], k, i)
  {
    hide InOrder, ReceiveAll, PiecesOf, Holds, PublicationAt, LastOf;
    InOrderNone(h, current);
    PieceSplit(h, c, current, []);
  }

  lemma QueuesUpFirst(h: History, c: Consumer, current: nat, src: Source, srcs: seq<Source>, i: nat)
    requires current <= src.k <= |h| && src.i < |PublicationAt(h, src.k)|
    requires var c' := Receive(c, true, MessageOf(h, src));
      QueuesUp(h, c', src.k, srcs, src.k, i) && c'.incremental == c.incremental && c'.delivered == c.delivered
    ensures QueuesUp(h, c, current, [src] + srcs, src.k, i)
  {
    hide InOrder, ReceiveAll, PiecesOf, Receive, Holds, PublicationAt, LastOf, MessageOf;
    PieceFirst(h, c, current, src, srcs);
  }

  /** A recovering consumer that is given consecutive messages of one publication queues them. */
  lemma {:induction false} StretchIsQueued(h: History, c: Consumer, current: nat, k: nat, i: nat, n: nat)
    requires c.recovering && current <= k <= |h| && i + n < |PublicationAt(h, k)|
    requires if i == 0 then Settled(c) && n > 0 else Holds(c.snapshot, PublicationAt(h, k), i)
    ensures QueuesUp(h, c, current, Stretch(k, i, n), k, i + n)
    decreases n
  {
    hide Settled, Holds, Receive, PublicationAt, MessageOf, QueuesUp;
    if n == 0 {
      QueuesUpNone(h, c, current, k, i);
    } else {
      var srcs := Stretch(k, i + 1, n - 1);
      OneIsQueued(h, c, k, i);
      StretchIsQueued(h, Receive(c, true, MessageOf(h, Source(k, i))), k, k, i + 1, n - 1);
      QueuesUpFirst(h, c, current, Source(k, i), srcs, i + n);
    }
  }

  lemma AirStep(s: System, current: nat, e: AirEvent, es: seq<AirEvent>)
    requires OnAir(s, current, e) && AirRun(Broadcast(s, current, e), Onwards(current, e), es)
    ensures AirRun(s, current, [e] + es)
    ensures Aired(s, current, [e] + es) == Aired(Broadcast(s, current, e), Onwards(current, e), es)
  {
    hide OnAir, Broadcast, Onwards;
    assert ([e] + es)[1..] == es;
  }

  lemma ExampleEmission(n: nat)
    requires n < 3
    ensures var s := System(EXAMPLE[..n], START);
      && OnAir(s, 0, Emission(EXAMPLE[n])) && Onwards(0, Emission(EXAMPLE[n])) == 0
      && Broadcast(s, 0, Emission(EXAMPLE[n])) == System(EXAMPLE[..n + 1], START)
  {
    ExampleStates();
    hide LegalAt, LegalHistory;
    StateAtNext(EXAMPLE, n);
    assert Trades(EXAMPLE[n]);
    assert EXAMPLE[..n][..n] == EXAMPLE[..n] && EXAMPLE[..n] + [EXAMPLE[n]] == EXAMPLE[..n + 1];
  }

  /** The consumer once update 2 has come before update 1. */
  const GAP := Consumer(1, true, map[], map[2 := EXAMPLE[1]], [])

  lemma GapOpens()
    ensures var s := System(EXAMPLE, START);
      && OnAir(s, 0, Updates([2])) && Onwards(0, Updates([2])) == 0
      && Broadcast(s, 0, Updates([2])) == System(EXAMPLE, GAP)
  {
    var m := Numbered(2, EXAMPLE[1]);
    assert IncrementsOf(EXAMPLE, [2]) == [m] && [m][1..] == [];
    assert ReceiveAll(START, false, [m]) == Receive(START, false, m);
  }

  lemma ExampleNoGap()
    ensures Genuine(EXAMPLE, GAP.incremental) && NoGapAfter(GAP.incremental, 3) && FirstMissing(GAP.incremental, 4) == 4
  {
    FirstMissingIs(GAP.incremental, 4, 4);
  }

  lemma EndArrives(c: Consumer, i: nat)
    requires c.recovering && |PublicationAt(EXAMPLE, 3)| == i + 1
    ensures OnAir(System(EXAMPLE, c), 1, Pieces([Source(3, i)]))
    ensures var m := MessageOf(EXAMPLE, Source(3, i));
      Broadcast(System(EXAMPLE, c), 1, Pieces([Source(3, i)])) == System(EXAMPLE, Receive(c, true, m))
  {
    hide PublicationAt, Receive, MessageOf;
    assert [Source(3, i)] + [] == [Source(3, i)];
    PieceFirst(EXAMPLE, c, 1, Source(3, i), []);
  }

  /** Everything that arrives is genuine and the publications arrive in order, and yet the client leaves
      recovery with a market that is not the exchange's. */
  lemma MixingCanFail() returns (es: seq<AirEvent>)
    ensures AirRun(System([], START), 0, es)
    ensures var s := Aired(System([], START), 0, es);
      && s.history == EXAMPLE && !s.consumer.recovering && s.consumer.next == 4
      && Fold(EMPTY, s.consumer.delivered) != StateAt(EXAMPLE, 3)
  {
    hide PublicationAt, Receive, ReceiveAll, Fold, OnAir, Broadcast, Onwards, Holds, Stretch, StateAt, LastOf;
    ExampleLengths();
    var last := |PublicationAt(EXAMPLE, 1)| - 1;
    var stretch := Stretch(1, 0, last);
    StretchIsSome(1, 0, last);
    StretchIsQueued(EXAMPLE, GAP, 0, 1, 0, last);
    var c := ReceiveAll(GAP, true, PiecesOf(EXAMPLE, 0, stretch));
    MixtureIsWrong(c, last);
    EndArrives(c, last);
    StretchArrives(stretch);
    GapOpens();
    ExampleEmission(0);
    ExampleEmission(1);
    ExampleEmission(2);
    assert EXAMPLE[..0] == [] && EXAMPLE[..3] == EXAMPLE;
    var end := System(EXAMPLE, Receive(c, true, MessageOf(EXAMPLE, Source(3, last))));
    es := [Pieces([Source(3, last)])];
    AirEnd(System(EXAMPLE, c), 1, es[0]);
    AirStep(System(EXAMPLE, GAP), 0, Pieces(stretch), es);
    es := [Pieces(stretch)] + es;
    AirStep(System(EXAMPLE, START), 0, Updates([2]), es);
    es := [Updates([2])] + es;
    AirStep(System(EXAMPLE[..2], START), 0, Emission(EXAMPLE[2]), es);
    es := [Emission(EXAMPLE[2])] + es;
    AirStep(System(EXAMPLE[..1], START), 0, Emission(EXAMPLE[1]), es);
    es := [Emission(EXAMPLE[1])] + es;
    AirStep(System([], START), 0, Emission(EXAMPLE[0]), es);
    es := [Emission(EXAMPLE[0])] + es;
    assert Aired(System([], START), 0, es) == end;
  }

  lemma AirEnd(s: System, current: nat, e: AirEvent)
    requires OnAir(s, current, e)
    ensures AirRun(s, current, [e]) && Aired(s, current, [e]) == Broadcast(s, current, e)
  {
    hide OnAir, Broadcast, Onwards;
    assert [e][1..] == [];
  }

  lemma MixtureIsWrong(c: Consumer, last: nat)
    requires last == |PublicationAt(EXAMPLE, 1)| - 1 == |PublicationAt(EXAMPLE, 3)| - 1
    requires c.recovering && c.incremental == GAP.incremental && c.delivered == []
    requires Holds(c.snapshot, PublicationAt(EXAMPLE, 1), last)
    ensures var c' := Receive(c, true, MessageOf(EXAMPLE, Source(3, last)));
      !c'.recovering && c'.next == 4 && Fold(EMPTY, c'.delivered) != StateAt(EXAMPLE, 3)
  {
    ExampleStates();
    ExampleLengths();
    hide Receive, Holds, AllReconciled, Fold, Publication, StateAt, LegalHistory, NoGapAfter, Genuine, FirstMissing;
    ExampleSizes(StateAt(EXAMPLE, 1), StateAt(EXAMPLE, 3));
    ExampleNoGap();
    FoldNone(EMPTY);
    ForeignEnd(EXAMPLE, c, 1, 3);
    assert EXAMPLE[3..3] == [];
  }

  lemma StretchArrives(srcs: seq<Source>)
    requires InOrder(EXAMPLE, 0, srcs) && LastOf(0, srcs) == 1
    ensures var s, e := System(EXAMPLE, GAP), Pieces(srcs);
      && OnAir(s, 0, e) && Onwards(0, e) == 1
      && Broadcast(s, 0, e) == System(EXAMPLE, ReceiveAll(GAP, true, PiecesOf(EXAMPLE, 0, srcs)))
  {
    hide InOrder, PiecesOf, ReceiveAll;
  }
}

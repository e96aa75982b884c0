/**
 The market data protocol over whole runs: the exchange emits updates, publishes snapshots, and the
 network loses, duplicates and reorders what the consumer gets to see.
 */
module Recovery {
  import opened Domain
  import opened Messages
  import opened MarketData
  import opened SnapshotSynthesizer
  import opened ConsumerSpec

  /** What the exchange has emitted: update number n is h[n - 1]. */
  type History = seq<Update>

  predicate LegalHistory(h: History) {
    LegalRun(EMPTY, h) && forall i :: 0 <= i < |h| ==> Trades(h[i])
  }

  /** The market after the first `n` updates. */
  function StateAt(h: History, n: nat): Market
    requires n <= |h|
  {
    Fold(EMPTY, h[..n])
  }

  /** The snapshot taken after update number `k`. */
  function PublicationAt(h: History, k: nat): seq<Update>
    requires k <= |h|
  {
    Publication(StateAt(h, k), k)
  }

  predicate From(h: History, k: nat, s: Queue) {
    k <= |h| && forall n :: n in s ==> n < |PublicationAt(h, k)| && s[n] == PublicationAt(h, k)[n]
  }

  /** All queued snapshot messages belong to one publication. */
  ghost predicate OnePublication(h: History, s: Queue) {
    exists k :: From(h, k, s)
  }

  predicate Genuine(h: History, q: Queue) {
    forall n :: n in q ==> 1 <= n <= |h| && q[n] == h[n - 1]
  }

  // ----- History only grows

  lemma {:induction false} StateAtNext(h: History, n: nat)
    requires n < |h| && LegalHistory(h)
    ensures LegalAt(StateAt(h, n), h[n]) && StateAt(h, n + 1) == ApplyAt(StateAt(h, n), h[n])
  {
    assert h[..n + 1] == h[..n] + [h[n]] && h == h[..n] + h[n..] && h[n..][0] == h[n];
    FoldConcat(EMPTY, h[..n], [h[n]]);
    FoldConcat(EMPTY, h[..n], h[n..]);
    FoldOne(StateAt(h, n), h[n]);
  }

  lemma StateAtIsPublic(h: History, n: nat)
    requires n <= |h| && LegalHistory(h)
    ensures PublicMarket(StateAt(h, n))
  {
    EmptyIsPublic();
    hide PublicBook, Fold, LegalRun;
    assert h == h[..n] + h[n..];
    FoldConcat(EMPTY, h[..n], h[n..]);
    LegalRunKeepsPublic(EMPTY, h[..n]);
  }

  lemma EmptyIsPublic()
    ensures PublicMarket(EMPTY)
  {
  }

  /** Updates a+1 .. b take the market from state a to state b. */
  lemma StateAtAdvances(h: History, a: nat, b: nat)
    requires a <= b <= |h| && LegalHistory(h)
    ensures LegalRun(StateAt(h, a), h[a..b]) && Fold(StateAt(h, a), h[a..b]) == StateAt(h, b)
  {
    assert h[..b] == h[..a] + h[a..b] && h == h[..b] + h[b..];
    FoldConcat(EMPTY, h[..b], h[b..]);
    FoldConcat(EMPTY, h[..a], h[a..b]);
  }

  lemma LongerHistory(h: History, u: Update, k: nat)
    requires k <= |h|
    ensures StateAt(h + [u], k) == StateAt(h, k) && PublicationAt(h + [u], k) == PublicationAt(h, k)
  {
    assert (h + [u])[..k] == h[..k];
  }

  // ----- The shape of a publication

  lemma {:induction false} NoMarkersInAdds(o: Orders, t: nat, n: nat)
    ensures forall i :: 0 <= i < |AddsBelow(o, t, n)| ==> !Marker(AddsBelow(o, t, n)[i])
  {
    if n > 0 {
      NoMarkersInAdds(o, t, n - 1);
    }
  }

  lemma {:induction false} NoMarkersInBody(m: Market, n: nat)
    requires n <= MAX_TICKERS
    ensures forall i :: 0 <= i < |Body(m, n)| ==> !Marker(Body(m, n)[i])
  {
    if n > 0 {
      NoMarkersInBody(m, n - 1);
      NoMarkersInAdds(m[n - 1], n - 1, MAX_ORDER_IDS);
    }
  }

  lemma {:induction false} PayloadOfUnmarked(us: seq<Update>)
    requires forall i :: 0 <= i < |us| ==> !Marker(us[i])
    ensures Payload(us) == us
  {
    if us != [] {
      PayloadOfUnmarked(us[..|us| - 1]);
    }
  }

  lemma {:induction false} PayloadAfterStart(last: nat, us: seq<Update>)
    requires forall i :: 0 <= i < |us| ==> !Marker(us[i])
    ensures Payload([SnapshotStart(last)] + us) == us
  {
    var vs := [SnapshotStart(last)] + us;
    if us == [] {
      assert vs[..0] == [];
    } else {
      PayloadAfterStart(last, us[..|us| - 1]);
      assert vs[..|vs| - 1] == [SnapshotStart(last)] + us[..|us| - 1];
    }
  }

  lemma PayloadOfPublication(m: Market, last: nat)
    ensures Payload(Publication(m, last)) == Body(m, MAX_TICKERS)
  {
    hide Body;
    NoMarkersInBody(m, MAX_TICKERS);
    PayloadAfterStart(last, Body(m, MAX_TICKERS));
    var us := Publication(m, last);
    assert us[..|us| - 1] == [SnapshotStart(last)] + Body(m, MAX_TICKERS);
  }

  /** SNAPSHOT_END comes last, and only there. */
  lemma EndIsLast(m: Market, last: nat, i: nat)
    requires i < |Publication(m, last)| && Publication(m, last)[i].SnapshotEnd?
    ensures i == |Publication(m, last)| - 1 && Publication(m, last)[i].last == last
  {
    hide Body;
    NoMarkersInBody(m, MAX_TICKERS);
  }

  // ----- Safety

  /** What every run keeps. Outside recovery, what was delivered is the exchange's market after update
      next - 1; during recovery, the queues hold genuine messages. */
  ghost predicate Safe(h: History, c: Consumer) {
    && LegalHistory(h)
    && LegalRun(EMPTY, c.delivered)
    && (!c.recovering ==> 1 <= c.next <= |h| + 1 && Fold(EMPTY, c.delivered) == StateAt(h, c.next - 1))
    && (c.recovering ==> OnePublication(h, c.snapshot) && Genuine(h, c.incremental))
  }

  /** A complete queued snapshot is a whole publication. */
  lemma WholePublication(h: History, k: nat, s: Queue)
    requires From(h, k, s) && s != map[] && Contiguous(s) && s[|s| - 1].SnapshotEnd?
    ensures Range(s, 0, |s|) == PublicationAt(h, k) && s[|s| - 1].last == k
  {
    hide Publication, Range;
    EndIsLast(StateAt(h, k), k, |s| - 1);
  }

  lemma QueuedUpdates(h: History, q: Queue, a: nat, b: nat)
    requires LegalHistory(h) && Genuine(h, q) && a <= b <= |h| && forall n :: a < n <= b ==> n in q
    ensures Payload(Range(q, a + 1, b + 1)) == h[a..b]
  {
    assert Range(q, a + 1, b + 1) == h[a..b];
    PayloadOfUnmarked(h[a..b]);
  }

  /** Delivering a snapshot of state k and updates k+1 .. n leaves exactly state n. */
  lemma RecoveryDelivers(h: History, delivered: seq<Update>, k: nat, n: nat)
    requires LegalHistory(h) && LegalRun(EMPTY, delivered) && k <= n <= |h|
    ensures var all := delivered + Body(StateAt(h, k), MAX_TICKERS) + h[k..n];
      LegalRun(EMPTY, all) && Fold(EMPTY, all) == StateAt(h, n)
  {
    hide Body, Fold, LegalRun;
    var body := Body(StateAt(h, k), MAX_TICKERS);
    StateAtIsPublic(h, k);
    SnapshotRebuilds(Fold(EMPTY, delivered), StateAt(h, k));
    FoldConcat(EMPTY, delivered, body);
    StateAtAdvances(h, k, n);
    FoldConcat(EMPTY, delivered + body, h[k..n]);
  }

  /** The snapshot queue holds a whole snapshot and the incremental queue has no gap behind it. */
  ghost predicate Completes(c: Consumer) {
    var s := c.snapshot;
    && s != map[] && Contiguous(s) && s[0].SnapshotStart? && s[|s| - 1].SnapshotEnd?
    && forall k :: k in c.incremental ==> k <= FirstMissing(c.incremental, s[|s| - 1].last + 1)
  }

  lemma CheckCompletes(c: Consumer)
    requires Completes(c)
    ensures var s := c.snapshot;
      var from := s[|s| - 1].last + 1;
      var next := FirstMissing(c.incremental, from);
      Check(c) == Consumer(next, false, map[], map[],
                           c.delivered + Payload(Range(s, 0, |s|)) + Payload(Range(c.incremental, from, next)))
  {
    hide Payload, Range, FirstMissing;
  }

  lemma CheckWaits(c: Consumer)
    requires !Completes(c)
    ensures Check(c).recovering == c.recovering && Check(c).delivered == c.delivered && Check(c).incremental == c.incremental
    ensures Check(c).snapshot == c.snapshot || Check(c).snapshot == map[]
  {
  }

  lemma CompletionIsSafe(h: History, c: Consumer)
    requires Safe(h, c) && c.recovering && Completes(c)
    ensures Safe(h, Check(c))
  {
    hide Fold, LegalRun, Publication, Range, Payload, FirstMissing, Check, Body;
    var s := c.snapshot;
    var k :| From(h, k, s);
    WholePublication(h, k, s);
    var next := FirstMissing(c.incremental, k + 1);
    assert next > k + 1 ==> next - 1 in c.incremental;
    CheckCompletes(c);
    PayloadOfPublication(StateAt(h, k), k);
    QueuedUpdates(h, c.incremental, k, next - 1);
    RecoveryDelivers(h, c.delivered, k, next - 1);
  }

  lemma CheckKeepsSafe(h: History, c: Consumer)
    requires Safe(h, c) && c.recovering
    ensures Safe(h, Check(c))
  {
    hide Fold, LegalRun, Publication, Range, Payload, FirstMissing, Check;
    if Completes(c) {
      CompletionIsSafe(h, c);
    } else {
      CheckWaits(c);
      assert From(h, 0, map[]);
    }
  }

  /** The snapshot queue once message `m` has been put into it. */
  function QueueWith(c: Consumer, m: Numbered): Queue {
    var q := if c.recovering then c.snapshot else map[];
    if m.number in q then map[m.number := m.update] else q[m.number := m.update]
  }

  /** What the network may hand to the consumer: any emitted update, any number of times and in any
      order, or a snapshot message that does not mix publications in the queue. */
  ghost predicate MayArrive(h: History, c: Consumer, isSnapshot: bool, m: Numbered) {
    if isSnapshot then OnePublication(h, QueueWith(c, m)) else 1 <= m.number <= |h| && m.update == h[m.number - 1]
  }

  lemma EnqueueKeepsSafe(h: History, c: Consumer, isSnapshot: bool, m: Numbered)
    requires Safe(h, c) && c.recovering && MayArrive(h, c, isSnapshot, m)
    ensures Safe(h, Enqueue(c, isSnapshot, m))
  {
    hide Fold, LegalRun, Check;
    if isSnapshot {
      CheckKeepsSafe(h, c.(snapshot := QueueWith(c, m)));
    } else {
      CheckKeepsSafe(h, c.(incremental := c.incremental[m.number := m.update]));
    }
  }

  /** Every message keeps the protocol safe. */
  lemma ReceiveKeepsSafe(h: History, c: Consumer, isSnapshot: bool, m: Numbered)
    requires Safe(h, c) && MayArrive(h, c, isSnapshot, m)
    ensures Safe(h, Receive(c, isSnapshot, m))
  {
    hide Fold, LegalRun, Enqueue;
    if c.recovering {
      EnqueueKeepsSafe(h, c, isSnapshot, m);
    } else if m.number != c.next {
      assert From(h, 0, map[]);
      EnqueueKeepsSafe(h, c.(recovering := true, snapshot := map[], incremental := map[]), isSnapshot, m);
    } else if !isSnapshot {
      StateAtNext(h, c.next - 1);
      FoldConcat(EMPTY, c.delivered, [m.update]);
      FoldOne(StateAt(h, c.next - 1), m.update);
    }
  }

  ghost predicate MayArriveAll(h: History, c: Consumer, isSnapshot: bool, ms: seq<Numbered>)
    decreases ms
  {
    ms != [] ==> MayArrive(h, c, isSnapshot, ms[0]) && MayArriveAll(h, Receive(c, isSnapshot, ms[0]), isSnapshot, ms[1..])
  }

  lemma {:induction false} ReceiveAllKeepsSafe(h: History, c: Consumer, isSnapshot: bool, ms: seq<Numbered>)
    requires Safe(h, c) && MayArriveAll(h, c, isSnapshot, ms)
    ensures Safe(h, ReceiveAll(c, isSnapshot, ms))
    decreases ms
  {
    hide Safe, Receive, MayArrive;
    if ms != [] {
      ReceiveKeepsSafe(h, c, isSnapshot, ms[0]);
      ReceiveAllKeepsSafe(h, Receive(c, isSnapshot, ms[0]), isSnapshot, ms[1..]);
    }
  }

  lemma EmitKeepsSafe(h: History, c: Consumer, u: Update)
    requires Safe(h, c) && Trades(u) && LegalAt(StateAt(h, |h|), u)
    ensures Safe(h + [u], c)
  {
    hide Fold, LegalRun, Publication;
    assert h[..|h|] == h;
    FoldConcat(EMPTY, h, [u]);
    FoldOne(Fold(EMPTY, h), u);
    if c.recovering {
      var k :| From(h, k, c.snapshot);
      LongerHistory(h, u, k);
      assert From(h + [u], k, c.snapshot);
    } else {
      LongerHistory(h, u, c.next - 1);
    }
  }

  // ----- Runs

  datatype Event =
    | Emit(update: Update)
    | Arrive(isSnapshot: bool, messages: seq<Numbered>)

  datatype System = System(history: History, consumer: Consumer)

  ghost function Perform(s: System, e: Event): System {
    match e
    case Emit(u) => s.(history := s.history + [u])
    case Arrive(isSnapshot, ms) => s.(consumer := Packet(s.consumer, isSnapshot, ms))
  }

  ghost predicate MayHappen(s: System, e: Event) {
    match e
    case Emit(u) => Trades(u) && LegalAt(StateAt(s.history, |s.history|), u)
    case Arrive(isSnapshot, ms) => MayArriveAll(s.history, s.consumer, isSnapshot, ms)
  }

  ghost function Execute(s: System, es: seq<Event>): System
    decreases es
  {
    if es == [] then s else Execute(Perform(s, es[0]), es[1..])
  }

  ghost predicate Possible(s: System, es: seq<Event>)
    decreases es
  {
    es != [] ==> MayHappen(s, es[0]) && Possible(Perform(s, es[0]), es[1..])
  }

  lemma PerformKeepsSafe(s: System, e: Event)
    requires Safe(s.history, s.consumer) && MayHappen(s, e)
    ensures var s' := Perform(s, e); Safe(s'.history, s'.consumer)
  {
    hide Safe, ReceiveAll, MayArriveAll;
    match e
    case Emit(u) => EmitKeepsSafe(s.history, s.consumer, u);
    case Arrive(isSnapshot, ms) =>
      if !isSnapshot || s.consumer.recovering {
        ReceiveAllKeepsSafe(s.history, s.consumer, isSnapshot, ms);
      }
  }

  lemma {:induction false} RunIsSafe(s: System, es: seq<Event>)
    requires Safe(s.history, s.consumer) && Possible(s, es)
    ensures var s' := Execute(s, es); Safe(s'.history, s'.consumer)
    decreases es
  {
    hide Safe, Perform, MayHappen;
    if es != [] {
      PerformKeepsSafe(s, es[0]);
      RunIsSafe(Perform(s, es[0]), es[1..]);
    }
  }

  /** In every run from the start, whenever the consumer is not recovering, the updates it has handed
      on rebuild exactly the exchange's market after update next - 1, and each of them was legal where
      it was applied. */
  lemma DeliveredMarketIsExchangeMarket(es: seq<Event>)
    requires Possible(System([], START), es)
    ensures var s := Execute(System([], START), es);
      && LegalRun(EMPTY, s.consumer.delivered)
      && (!s.consumer.recovering ==>
            && 1 <= s.consumer.next <= |s.history| + 1
            && Fold(EMPTY, s.consumer.delivered) == StateAt(s.history, s.consumer.next - 1))
  {
    RunIsSafe(System([], START), es);
  }
}

/**
 The client can always catch up: from every state that an execution reaches, one delivery of what the
 exchange has sent brings the client's market level with the exchange's.
 */
module CatchUp {
  import opened Messages
  import opened MarketData
  import opened SnapshotSynthesizer
  import opened Domain
  import opened ConsumerSpec
  import opened Recovery
  import opened RecoveryProgress
  import opened AgreedSnapshots
  import opened OrderlyDelivery
  import opened ExchangeRuns
  import opened EndToEnd

  /** The numbers from `a` up to but not including `b`. */
  function Numbers(a: nat, b: nat): seq<nat>
    requires a <= b
  {
    seq(b - a, i requires 0 <= i < b - a => a + i)
  }

  lemma {:induction false} IncrementsAt(h: History, ns: seq<nat>, i: nat)
    requires (forall k :: 0 <= k < |ns| ==> 1 <= ns[k] <= |h|) && i < |ns|
    ensures |IncrementsOf(h, ns)| == |ns| && IncrementsOf(h, ns)[i] == Numbered(ns[i], h[ns[i] - 1])
    decreases ns
  {
    if |ns| > 1 {
      IncrementsAt(h, ns[1..], if i > 0 then i - 1 else 0);
    }
  }

  lemma {:induction false} IncrementsLength(h: History, ns: seq<nat>)
    requires forall k :: 0 <= k < |ns| ==> 1 <= ns[k] <= |h|
    ensures |IncrementsOf(h, ns)| == |ns|
    decreases ns
  {
    if ns != [] {
      IncrementsLength(h, ns[1..]);
    }
  }

  /** A consumer outside recovery that is given all the updates it has not seen, in order, is up to date. */
  lemma MissingUpdatesSuffice(h: History, c: Consumer)
    requires !c.recovering && 1 <= c.next <= |h| + 1
    ensures var ns := Numbers(c.next, |h| + 1);
      && (forall i :: 0 <= i < |ns| ==> 1 <= ns[i] <= |h|)
      && var c' := Packet(c, false, IncrementsOf(h, ns));
         !c'.recovering && c'.next == |h| + 1 && c'.delivered == c.delivered + h[c.next - 1..]
  {
    hide ReceiveAll, IncrementsOf;
    var ns := Numbers(c.next, |h| + 1);
    var ms := IncrementsOf(h, ns);
    IncrementsLength(h, ns);
    forall i | 0 <= i < |ms| ensures ms[i] == Numbered(c.next + i, h[c.next + i - 1]) {
      IncrementsAt(h, ns, i);
    }
    AllInOrder(c.next, ms);
    BatchIsDelivered(c, ms);
    assert ms[..|ms|] == ms && UpdatesOf(ms) == h[c.next - 1..];
  }

  /** A recovering consumer that is given the whole publication of the latest state, in order, is up to date. */
  lemma LatestPublicationSuffices(h: History, c: Consumer, current: nat)
    requires Ordered(h, c, current) && c.recovering
    ensures Finishes(h, c, current, Stretch(|h|, 0, |PublicationAt(h, |h|)|))
  {
    hide Fold, LegalRun, LegalHistory, Sourced, Finishes, Publication, Genuine;
    PublicationIsShaped(StateAt(h, |h|), |h|);
    LatestPublicationEnds(h, c, current, 0, |PublicationAt(h, |h|)|);
  }

  /** One delivery that brings the client up to date. */
  ghost function Remedy(j: Joint): AirEvent
    requires !j.system.consumer.recovering ==> j.system.consumer.next <= |j.system.history| + 1
  {
    var h := j.system.history;
    if j.system.consumer.recovering then Pieces(Stretch(|h|, 0, |PublicationAt(h, |h|)|))
    else Updates(Numbers(j.system.consumer.next, |h| + 1))
  }

  lemma OrderedIsWithin(h: History, c: Consumer, current: nat)
    requires Ordered(h, c, current)
    ensures !c.recovering ==> 1 <= c.next <= |h| + 1
  {
    hide Fold, LegalRun, LegalHistory, Sourced, Settled;
  }

  lemma RemedyHelps(j: Joint)
    requires Linked(j)
    ensures !j.system.consumer.recovering ==> 1 <= j.system.consumer.next <= |j.system.history| + 1
    ensures CanHappen(j, Delivery(Remedy(j)))
    ensures var j' := Step(j, Delivery(Remedy(j)));
      UpToDate(j') && j'.books == j.books && j'.system.history == j.system.history
  {
    hide Ordered, IsExchange, PublishAll, StateAt, ReceiveAll, IncrementsOf, PiecesOf, InOrder, AgreedPieces, PublicationAt, Stretch;
    var h, c := j.system.history, j.system.consumer;
    OrderedIsWithin(h, c, j.current);
    if c.recovering {
      LatestPublicationSuffices(h, c, j.current);
    } else {
      MissingUpdatesSuffice(h, c);
    }
  }

  /** After every execution, one more delivery of genuine messages, the updates not yet seen or a publication of
      the latest state, leaves the client with exactly the exchange's public books. */
  lemma EveryExecutionCanCatchUp(es: seq<JointEvent>)
    requires Feasible(Beginning(), es)
    ensures var j := Execution(Beginning(), es);
      && (!j.system.consumer.recovering ==> 1 <= j.system.consumer.next <= |j.system.history| + 1)
      && CanHappen(j, Delivery(Remedy(j)))
      && var j' := Step(j, Delivery(Remedy(j)));
         && UpToDate(j') && j'.books == j.books && |j.books| == MAX_TICKERS
         && Fold(EMPTY, j'.system.consumer.delivered) == PublishAll(j.books)
  {
    hide Feasible, Execution, Beginning, Remedy, CanHappen, Step, Fold, LegalRun, StateAt, PublishAll;
    BeginningIsLinked();
    ExecutionIsLinked(Beginning(), es);
    var j := Execution(Beginning(), es);
    RemedyHelps(j);
    StepKeepsLinked(j, Delivery(Remedy(j)));
    UpToDateIsLevel(Step(j, Delivery(Remedy(j))));
  }

  lemma UpToDateIsLevel(j: Joint)
    requires Linked(j) && UpToDate(j)
    ensures |j.books| == MAX_TICKERS && Fold(EMPTY, j.system.consumer.delivered) == PublishAll(j.books)
  {
    hide Fold, LegalRun, LegalHistory, StateAt, Sourced, Settled, PublishAll;
  }

  /** What the synthesizer numbers and what the publisher numbers are the messages that the network carries. */
  lemma SentIsCarried(h: History, k: nat, i: nat)
    requires k <= |h|
    ensures i < |PublicationAt(h, k)| ==> Number(PublicationAt(h, k))[i] == MessageOf(h, Source(k, i)) == Numbered(i, PublicationAt(h, k)[i])
    ensures 0 < i <= |h| ==> IncrementsOf(h, [i]) == [Numbered(i, h[i - 1])]
  {
    hide PublicationAt;
    if 0 < i <= |h| {
      IncrementsAt(h, [i], 0);
    }
  }
}

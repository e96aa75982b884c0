/**
 From the exchange's books to the client's: requests go in at one end, a lossy network lies between,
 and the trading client's books come out at the other end.
 */
module EndToEnd {
  import opened Domain
  import opened Messages
  import opened MarketData
  import opened ConsumerSpec
  import opened Recovery
  import opened AgreedSnapshots
  import opened ExchangeRuns
  import PriceTime
  import PublicFeed
  import MatchingEngine
  import MarketOrderBook
  import LevelBook
  import Mirror

  /** The exchange's books; what it has emitted with the consumer that listens; and the publication
      whose messages the consumer saw last. */
  datatype Joint = Joint(books: seq<PriceTime.Book>, system: System, current: nat)

  datatype JointEvent =
    | Request(request: Routed)
    | Delivery(event: AirEvent)

  /** Requests are admissible and leave room in the pools, and the market ids, which are indices of the receivers'
      arrays, are not used up: fewer than 2^20 new orders a ticker. Of what the exchange has sent, any message may be
      lost, repeated or reordered, as long as publications stay in order and each snapshot that the consumer
      completes carries one number. */
  ghost predicate CanHappen(j: Joint, e: JointEvent) {
    match e
    case Request(r) => AdmissibleAt(j.books, r)
    case Delivery(a) =>
      && !a.Emission? && OnAir(j.system, j.current, a)
      && (a.Pieces? && j.system.consumer.recovering ==>
            AgreedPieces(j.system.history, j.current, j.system.consumer, a.sources))
  }

  ghost function Step(j: Joint, e: JointEvent): Joint
    requires CanHappen(j, e)
  {
    match e
    case Request(r) =>
      var (books, us) := Handle(j.books, r);
      Joint(books, j.system.(history := j.system.history + us), j.current)
    case Delivery(a) =>
      Joint(j.books, Broadcast(j.system, j.current, a), Onwards(j.current, a))
  }

  ghost predicate Feasible(j: Joint, es: seq<JointEvent>)
    decreases es
  {
    es != [] ==> CanHappen(j, es[0]) && Feasible(Step(j, es[0]), es[1..])
  }

  ghost function Execution(j: Joint, es: seq<JointEvent>): Joint
    requires Feasible(j, es)
    decreases es
  {
    if es == [] then j else Execution(Step(j, es[0]), es[1..])
  }

  /** The history is the exchange's own, and the consumer is safe with respect to it. */
  ghost predicate Linked(j: Joint) {
    && IsExchange(j.books)
    && Ordered(j.system.history, j.system.consumer, j.current)
    && StateAt(j.system.history, |j.system.history|) == PublishAll(j.books)
  }

  lemma {:induction false} EmissionsKeepOrdered(s: System, current: nat, us: seq<Update>)
    requires Ordered(s.history, s.consumer, current) && LegalRun(StateAt(s.history, |s.history|), us)
    requires forall i :: 0 <= i < |us| ==> Trades(us[i])
    ensures var h := s.history + us;
      Ordered(h, s.consumer, current) && StateAt(h, |h|) == Fold(StateAt(s.history, |s.history|), us)
    decreases us
  {
    hide Ordered, Fold, LegalRun, LegalAt, ApplyAt, StateAt;
    var h := s.history;
    if us == [] {
      assert h + us == h;
      FoldNone(StateAt(h, |h|));
    } else {
      var u := us[0];
      FoldFirst(StateAt(h, |h|), us);
      EmissionKeepsOrdered(h, s.consumer, current, u);
      StateAfterEmission(h, u);
      EmissionsKeepOrdered(System(h + [u], s.consumer), current, us[1..]);
      assert h + us == h + [u] + us[1..];
    }
  }

  lemma FoldFirst(m: Market, us: seq<Update>)
    requires us != []
    ensures Fold(m, us) == Fold(ApplyAt(m, us[0]), us[1..])
    ensures LegalRun(m, us) ==> LegalAt(m, us[0]) && LegalRun(ApplyAt(m, us[0]), us[1..])
  {
  }

  lemma StateAfterEmission(h: History, u: Update)
    ensures StateAt(h + [u], |h| + 1) == ApplyAt(StateAt(h, |h|), u)
  {
    hide ApplyAt;
    FoldConcat(EMPTY, h, [u]);
    FoldOne(Fold(EMPTY, h), u);
    assert (h + [u])[..|h| + 1] == h + [u] && h[..|h|] == h;
  }

  lemma StepKeepsLinked(j: Joint, e: JointEvent)
    requires Linked(j) && CanHappen(j, e)
    ensures Linked(Step(j, e))
  {
    hide Ordered, IsExchange, PublishAll, StateAt, LegalRun, Fold, Handle, AdmissibleAt, OnAir, AgreedPieces;
    match e
    case Request(r) =>
      HandleReplays(j.books, r);
      EmissionsKeepOrdered(j.system, j.current, Handle(j.books, r).1);
    case Delivery(a) =>
      BroadcastKeepsOrdered(j.system, j.current, a);
      HistoryStays(j.system, j.current, a);
  }

  lemma HistoryStays(s: System, current: nat, a: AirEvent)
    requires OnAir(s, current, a) && !a.Emission?
    ensures Broadcast(s, current, a).history == s.history
  {
    hide Packet;
  }

  lemma {:induction false} ExecutionIsLinked(j: Joint, es: seq<JointEvent>)
    requires Linked(j) && Feasible(j, es)
    ensures Linked(Execution(j, es))
    decreases es
  {
    if es != [] {
      hide Linked, Step, CanHappen;
      StepKeepsLinked(j, es[0]);
      ExecutionIsLinked(Step(j, es[0]), es[1..]);
    }
  }

  ghost function NewExchange(): seq<PriceTime.Book> {
    seq(MAX_TICKERS, t requires 0 <= t < MAX_TICKERS => PriceTime.Book(t, map[], 1))
  }

  ghost function Beginning(): Joint {
    Joint(NewExchange(), System([], START), 0)
  }

  lemma BeginningIsLinked()
    ensures Linked(Beginning())
  {
    hide Ordered;
    StartIsOrdered();
    assert PublishAll(NewExchange()) == EMPTY;
  }

  /** In every execution, a consumer that is not recovering and has seen the last update holds exactly
      the exchange's public books; if it is behind, it holds the books as they were after update
      next - 1. Each update was legal for the market it was applied to. */
  lemma ClientMarketIsExchangeMarket(es: seq<JointEvent>)
    requires Feasible(Beginning(), es)
    ensures var j := Execution(Beginning(), es);
      var c, h := j.system.consumer, j.system.history;
      && LegalRun(EMPTY, c.delivered)
      && |j.books| == MAX_TICKERS && StateAt(h, |h|) == PublishAll(j.books)
      && (!c.recovering ==> 1 <= c.next <= |h| + 1 && Fold(EMPTY, c.delivered) == StateAt(h, c.next - 1))
      && (!c.recovering && c.next == |h| + 1 ==> Fold(EMPTY, c.delivered) == PublishAll(j.books))
  {
    hide Feasible, Execution, LegalRun, Fold, StateAt, PublishAll, LegalHistory, NewExchange;
    BeginningIsLinked();
    ExecutionIsLinked(Beginning(), es);
  }

  // ----- The pointer book at the client

  /** The updates delivered for one ticker replay that ticker's book. */
  lemma DeliveredForTicker(es: seq<JointEvent>, t: nat)
    requires t < MAX_TICKERS && Feasible(Beginning(), es)
    ensures var j := Execution(Beginning(), es);
      var us := ForTicker(j.system.consumer.delivered, t);
      var o := Fold(EMPTY, j.system.consumer.delivered)[t];
      && Replays(map[], us, o)
      && (forall i :: 0 <= i < |us| && Trades(us[i]) ==> us[i].id < MAX_ORDER_IDS)
      && |j.books| == MAX_TICKERS
      && (UpToDate(j) ==> o == PublicFeed.Publish(j.books[t].orders))
  {
    hide Feasible, Execution, ForTicker, Fold, LegalRun, StateAt, Replays, PublicFeed.Publish, Beginning;
    ClientMarketIsExchangeMarket(es);
    TickerReplays(EMPTY, Execution(Beginning(), es).system.consumer.delivered, t);
  }

  /** The consumer is not recovering and has seen the last update. */
  predicate UpToDate(j: Joint) {
    !j.system.consumer.recovering && j.system.consumer.next == |j.system.history| + 1
  }

  /** What one execution means for the pointer book of a ticker that is given the delivered updates, up to and
      with the first CLEAR that finds orders: no ASSERT of it fires; it gets to the end, and is sound,
      exactly if no CLEAR finds orders; and then it holds what has been delivered, which, with the consumer up to
      date, is the exchange's public orders. */
  method RebuildClientBook(us: seq<Update>, t: nat, ghost es: seq<JointEvent>)
      returns (client: MarketOrderBook.Book, ok: bool, n: nat)
    requires t < MAX_TICKERS && Feasible(Beginning(), es)
    requires us == ForTicker(Execution(Beginning(), es).system.consumer.delivered, t)
    ensures ok && n == MarketOrderBook.Book.SoundLength(map[], us)
    ensures client.Valid() <==> n == |us|
    ensures var j := Execution(Beginning(), es);
      && |j.books| == MAX_TICKERS
      && (n == |us| ==> client.book.Named() && client.book.View() == Fold(EMPTY, j.system.consumer.delivered)[t])
      && (n == |us| && UpToDate(j) ==> client.book.View() == PublicFeed.Publish(j.books[t].orders))
    ensures fresh(client) && fresh(client.book)
  {
    hide Feasible, Execution, Beginning, ForTicker, Fold, Replays, PublicFeed.Publish;
    hide MarketOrderBook.Book.Valid, MarketOrderBook.Book.SoundLength, LevelBook.Book.View, LevelBook.Book.Named;
    DeliveredForTicker(es, t);
    client := new MarketOrderBook.Book();
    ok, n := client.Replay(us, Fold(EMPTY, Execution(Beginning(), es).system.consumer.delivered)[t]);
  }

  // ----- Both pointer books

  /** The requests to one ticker's book. */
  function RequestsFor(es: seq<JointEvent>, t: nat): seq<Messages.Request> {
    if es == [] then []
    else if es[0].Request? && es[0].request.ticker == t then [es[0].request.request] + RequestsFor(es[1..], t)
    else RequestsFor(es[1..], t)
  }

  /** A ticker's book in an execution is its book after its own requests. */
  lemma {:induction false} BookOfTicker(j: Joint, es: seq<JointEvent>, t: nat)
    requires Feasible(j, es) && t < |j.books|
    ensures var rs := RequestsFor(es, t);
      && AdmissibleRun(j.books[t], rs) && RoomyRun(j.books[t], rs)
      && |Execution(j, es).books| == |j.books| && Run(j.books[t], rs).book == Execution(j, es).books[t]
    decreases es
  {
    if es != [] {
      hide PriceTime.Process, PriceTime.Admissible, PriceTime.Owned, Roomy, OnAir, AgreedPieces, Broadcast;
      BookOfTicker(Step(j, es[0]), es[1..], t);
      if es[0].Request? && es[0].request.ticker == t {
        assert RequestsFor(es, t)[1..] == RequestsFor(es[1..], t);
      }
    }
  }

  /** The whole way, pointer book to pointer book: one ticker's book at the exchange takes its requests, one
      client's book takes what the network delivered of it. Neither stops, and the exchange's book is sound and
      holds the orders of the execution. The client's book is sound exactly if no CLEAR finds orders; then, if the
      consumer is up to date, it holds the same orders, and the two books have the same price levels in the same
      order and the same orders in the same order at each. */
  method MirrorExchange(rs: seq<Messages.Request>, us: seq<Update>, t: nat, ghost es: seq<JointEvent>)
      returns (exchange: MatchingEngine.OrderBook, client: MarketOrderBook.Book, ok: bool, n: nat)
    requires t < MAX_TICKERS && Feasible(Beginning(), es) && rs == RequestsFor(es, t)
    requires us == ForTicker(Execution(Beginning(), es).system.consumer.delivered, t)
    ensures ok && n == MarketOrderBook.Book.SoundLength(map[], us)
    ensures exchange.Valid() && |Execution(Beginning(), es).books| == MAX_TICKERS
    ensures exchange.View() == Execution(Beginning(), es).books[t]
    ensures client.Valid() <==> n == |us|
    ensures n == |us| ==>
      client.book.Named() && client.book.View() == Fold(EMPTY, Execution(Beginning(), es).system.consumer.delivered)[t]
    ensures n == |us| && UpToDate(Execution(Beginning(), es)) ==>
      client.book.View() == PublicFeed.Publish(exchange.View().orders)
    ensures n == |us| && UpToDate(Execution(Beginning(), es)) ==>
      Mirror.Mirrors(exchange.book, client.book, Buy) && Mirror.Mirrors(exchange.book, client.book, Sell)
  {
    hide Feasible, Execution, ForTicker, RequestsFor, PublicFeed.Publish, AdmissibleRun, RoomyRun, Run, Mirror.Mirrors;
    hide MarketOrderBook.Book.SoundLength, LevelBook.Book.View, LevelBook.Book.Valid, LevelBook.Book.Named;
    BookOfTicker(Beginning(), es, t);
    exchange := new MatchingEngine.OrderBook(t);
    ok := exchange.ProcessAll(rs);
    var passed;
    client, passed, n := RebuildClientBook(us, t, es);
    if n == |us| && UpToDate(Execution(Beginning(), es)) {
      Mirror.SameShape(exchange.book, client.book, Buy);
      Mirror.SameShape(exchange.book, client.book, Sell);
    }
    ok := ok && passed;
  }
}

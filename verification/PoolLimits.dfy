/**
 A run that exhausts a memory pool: the pool of price levels has 256 blocks and stops the process as it
 hands out the last one, so the 256th price level cannot be opened although there are 256 index slots.
 */
module PoolLimits {
  import opened Domain
  import opened Messages
  import opened PriceTime
  import opened ExchangeRuns

  /** One bid each at the prices 1, 2, 3 and so on. */
  function Bid(n: nat): Request {
    NewOrder(0, n, Buy, n + 1, 1)
  }

  /** The book after the first `n` of these bids. */
  function Staircase(ticker: nat, n: nat): Book {
    Book(ticker, Stairs(n), n + 1)
  }

  function Stairs(n: nat): (o: Orders)
    ensures forall id :: id in o <==> 1 <= id <= n
    ensures forall id :: id in o ==> o[id] == Resting(Owner(0, id - 1), Buy, id, 1, 1)
  {
    if n == 0 then map[] else Stairs(n - 1)[n := Resting(Owner(0, n - 1), Buy, n, 1, 1)]
  }

  function BidsFrom(n: nat): seq<Request>
    requires n <= MAX_PRICE_LEVELS
    decreases MAX_PRICE_LEVELS - n
  {
    if n == MAX_PRICE_LEVELS then [] else [Bid(n)] + BidsFrom(n + 1)
  }

  lemma BidFits(ticker: nat, n: nat)
    requires n < MAX_PRICE_LEVELS
    ensures Owned(Staircase(ticker, n).orders) && Admissible(Staircase(ticker, n), Bid(n))
  {
  }

  /** A bid meets no ask and has its price to itself. */
  lemma BidRests(ticker: nat, n: nat)
    requires n < MAX_PRICE_LEVELS
    ensures Owned(Staircase(ticker, n).orders) && Process(Staircase(ticker, n), Bid(n)).book == Staircase(ticker, n + 1)
  {
    var b := Staircase(ticker, n);
    var t := Taker(ticker, Owner(0, n), n + 1, Buy, n + 1);
    assert forall id :: !IsBest(b.orders, Sell, id);
    assert Best(b.orders, Sell) == None;
    assert Match(b.orders, t, 1) == Outcome(b.orders, 1, [], []);
    var price: int := n + 1;
    assert forall id :: !IsLast(b.orders, Buy, price, id);
    assert NextPriority(b.orders, Buy, price) == 1;
  }

  lemma {:induction false} StaircasePrices(ticker: nat, n: nat)
    ensures |Prices(Staircase(ticker, n).orders)| == n
  {
    if n == 0 {
      assert Prices(Stairs(0)) == {};
    } else {
      StaircasePrices(ticker, n - 1);
      PricesWith(Stairs(n - 1), n, Stairs(n)[n]);
    }
  }

  lemma {:induction false} BidsExhaust(ticker: nat, n: nat)
    requires n < MAX_PRICE_LEVELS
    ensures AdmissibleRun(Staircase(ticker, n), BidsFrom(n)) && !RoomyRun(Staircase(ticker, n), BidsFrom(n))
    decreases MAX_PRICE_LEVELS - n
  {
    hide Process, Staircase, Bid, Admissible, Owned, AdmissibleRun, RoomyRun, Prices;
    BidFits(ticker, n);
    BidRests(ticker, n);
    if n + 1 < MAX_PRICE_LEVELS {
      BidsExhaust(ticker, n + 1);
    } else {
      StaircasePrices(ticker, n + 1);
      NothingToRun(Staircase(ticker, n + 1));
    }
    OneThenRest(Staircase(ticker, n), Bid(n), BidsFrom(n + 1));
  }

  lemma NothingToRun(b: Book)
    ensures AdmissibleRun(b, [])
  {
  }

  lemma OneThenRest(b: Book, r: Request, rs: seq<Request>)
    requires Owned(b.orders) && Admissible(b, r) && AdmissibleRun(Process(b, r).book, rs)
    ensures AdmissibleRun(b, [r] + rs)
    ensures RoomyRun(b, [r] + rs) <==> Roomy(Process(b, r).book.orders) && RoomyRun(Process(b, r).book, rs)
  {
    hide Process, Admissible, Owned;
    assert ([r] + rs)[1..] == rs;
  }

  /** From an empty book, 256 admissible bids at different prices exhaust the pool of levels. */
  lemma TooManyLevels(ticker: nat)
    ensures var b := Book(ticker, map[], 1); AdmissibleRun(b, BidsFrom(0)) && !RoomyRun(b, BidsFrom(0))
  {
    BidsExhaust(ticker, 0);
    assert Staircase(ticker, 0) == Book(ticker, map[], 1);
  }
}

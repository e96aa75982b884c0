/**
 The best bid and offer of a public book, and the client's cached copy of it.
 */
module BestQuote {
  import opened Domain
  import opened Messages
  import opened MarketData

  datatype Quote = Quote(price: int, quantity: nat)

  const NONE := Quote(PRICE_INVALID, QUANTITY_INVALID)

  predicate At(r: Resting, s: Side, price: int) {
    r.side == s && r.price == price
  }

  /** The quantity resting at one price of one side, over ids below `n`. */
  function SumBelow(o: Orders, s: Side, price: int, n: nat): nat {
    if n == 0 then 0
    else SumBelow(o, s, price, n - 1) + if n - 1 in o && At(o[n - 1], s, price) then o[n - 1].quantity else 0
  }

  predicate Has(o: Orders, s: Side) {
    exists id :: id in o && o[id].side == s
  }

  /** No order of side `s` has a better price than `price`, and some order has that price. */
  predicate IsBestPrice(o: Orders, s: Side, price: int) {
    && (exists id :: id in o && At(o[id], s, price))
    && forall id :: id in o && o[id].side == s ==> !Better(s, o[id].price, price)
  }

  /** Best price and total quantity of a side, computed from its orders. */
  ghost function QuoteOf(o: Orders, s: Side): Quote {
    if price :| IsBestPrice(o, s, price) then Quote(price, SumBelow(o, s, price, MAX_ORDER_IDS)) else NONE
  }

  lemma QuoteIs(o: Orders, s: Side, price: int)
    requires IsBestPrice(o, s, price)
    ensures QuoteOf(o, s) == Quote(price, SumBelow(o, s, price, MAX_ORDER_IDS))
  {
    hide SumBelow;
  }

  lemma {:induction false} BestPriceExists(o: Orders, s: Side, id: nat)
    requires id in o && o[id].side == s
    ensures exists price :: IsBestPrice(o, s, price)
    decreases |o|
  {
    var rest := o - {id};
    assert forall k :: k in o && k != id ==> k in rest && rest[k] == o[k];
    if k :| k in rest && rest[k].side == s {
      BestPriceExists(rest, s, k);
      var price :| IsBestPrice(rest, s, price);
      var b := if Better(s, o[id].price, price) then o[id].price else price;
      var j :| j in rest && At(rest[j], s, price);
      assert At(o[if Better(s, o[id].price, price) then id else j], s, b);
      assert IsBestPrice(o, s, b);
    } else {
      assert At(o[id], s, o[id].price);
      assert IsBestPrice(o, s, o[id].price);
    }
  }

  lemma NoQuote(o: Orders, s: Side)
    requires !Has(o, s)
    ensures QuoteOf(o, s) == NONE
  {
  }

  lemma {:induction false} SumUnaffected(o: Orders, o': Orders, s: Side, price: int, n: nat)
    requires forall id :: id in o && At(o[id], s, price) ==> id in o' && o'[id] == o[id]
    requires forall id :: id in o' && At(o'[id], s, price) ==> id in o && o'[id] == o[id]
    ensures SumBelow(o', s, price, n) == SumBelow(o, s, price, n)
  {
    if n > 0 {
      SumUnaffected(o, o', s, price, n - 1);
    }
  }

  // ----- The cache

  /** The flags of onMarketUpdate: an update at or ahead of the best price of a side that has one. */
  ghost predicate Touches(o: Orders, u: Update, s: Side) {
    Trades(u) && u.side == s && exists price :: IsBestPrice(o, s, price) && !Better(s, price, u.price)
  }

  /** The first order of an empty side; no flag is raised for it. */
  predicate First(o: Orders, u: Update, s: Side) {
    u.Add? && u.side == s && !Has(o, s)
  }

  /** The cached quote of side `s` after update `u`. */
  ghost function Cache(o: Orders, cached: Quote, u: Update, s: Side): Quote {
    if Touches(o, u, s) then QuoteOf(Apply(o, u), s) else cached
  }

  /** An update behind the best price, or on the other side, leaves the best level alone. */
  lemma BestPriceStays(o: Orders, u: Update, s: Side, price: int)
    requires Trades(u) && Legal(o, u) && IsBestPrice(o, s, price) && (u.side == s ==> Better(s, price, u.price))
    ensures var o' := Apply(o, u);
      && IsBestPrice(o', s, price)
      && (forall id :: id in o && At(o[id], s, price) ==> id in o' && o'[id] == o[id])
      && (forall id :: id in o' && At(o'[id], s, price) ==> id in o && o'[id] == o[id])
  {
    hide Roomy, PriceToIndex;
    var k :| k in o && At(o[k], s, price);
    assert k in Apply(o, u) && At(Apply(o, u)[k], s, price);
  }

  lemma QuoteUnaffected(o: Orders, u: Update, s: Side)
    requires Trades(u) && Legal(o, u) && !Touches(o, u, s) && !First(o, u, s)
    ensures QuoteOf(Apply(o, u), s) == QuoteOf(o, s)
  {
    var o' := Apply(o, u);
    if id :| id in o && o[id].side == s {
      BestPriceExists(o, s, id);
      var price :| IsBestPrice(o, s, price);
      assert u.side == s ==> Better(s, price, u.price);
      BestPriceStays(o, u, s, price);
      hide SumBelow, Legal, Apply, IsBestPrice, QuoteOf, Touches;
      SumUnaffected(o, o', s, price, MAX_ORDER_IDS);
      QuoteIs(o, s, price);
      QuoteIs(o', s, price);
    } else {
      NoQuote(o, s);
      NoQuote(o', s);
    }
  }

  lemma {:induction false} SumOfOne(o: Orders, s: Side, price: int, id: nat, n: nat)
    requires id in o && At(o[id], s, price) && forall k :: k in o && At(o[k], s, price) ==> k == id
    ensures SumBelow(o, s, price, n) == if id < n then o[id].quantity else 0
  {
    if n > 0 {
      SumOfOne(o, s, price, id, n - 1);
    }
  }

  lemma FirstQuote(o: Orders, u: Update, s: Side)
    requires Legal(o, u) && First(o, u, s) && u.id < MAX_ORDER_IDS
    ensures QuoteOf(Apply(o, u), s) == Quote(u.price, u.quantity)
  {
    var o' := Apply(o, u);
    assert u.id in o' && At(o'[u.id], s, u.price);
    assert IsBestPrice(o', s, u.price);
    hide SumBelow;
    SumOfOne(o', s, u.price, u.id, MAX_ORDER_IDS);
    QuoteIs(o', s, u.price);
  }

  /** Exactly when the cached quote is right after an update: the update touched the best price, or
      the cache was right before and the update was not the first order of an empty side, or it was
      and the cache happened to hold that very quote. */
  lemma CacheIsRight(o: Orders, cached: Quote, u: Update, s: Side)
    requires Trades(u) && Legal(o, u) && u.id < MAX_ORDER_IDS
    ensures Cache(o, cached, u, s) == QuoteOf(Apply(o, u), s) <==>
      || Touches(o, u, s)
      || (if First(o, u, s) then cached == Quote(u.price, u.quantity) else cached == QuoteOf(o, s))
  {
    hide QuoteOf, First, Legal;
    if !Touches(o, u, s) {
      if First(o, u, s) {
        FirstQuote(o, u, s);
      } else {
        QuoteUnaffected(o, u, s);
      }
    }
  }

  /** CLEAR raises no flag either: after it, the cached quote is right exactly if there was none. */
  lemma CacheAfterClear(o: Orders, cached: Quote, t: nat, s: Side)
    ensures Cache(o, cached, Clear(t), s) == QuoteOf(Apply(o, Clear(t)), s) <==> cached == NONE
  {
    NoQuote(map[], s);
  }

  /** The first order of an empty side raises no flag: a side without a quote stays without one although
      there is an order now. */
  lemma FirstOrderIsMissed(o: Orders, u: Update, s: Side)
    requires Legal(o, u) && First(o, u, s) && u.id < MAX_ORDER_IDS && u.price != PRICE_INVALID
    ensures Cache(o, NONE, u, s) == NONE && QuoteOf(Apply(o, u), s) == Quote(u.price, u.quantity) != NONE
  {
    hide QuoteOf;
    FirstQuote(o, u, s);
  }

  lemma {:induction false} SumMoves(o: Orders, u: Update, n: nat)
    requires Trades(u) && Legal(o, u)
    ensures SumBelow(Apply(o, u), u.side, u.price, n) + (if !u.Add? && u.id < n then o[u.id].quantity else 0) ==
      SumBelow(o, u.side, u.price, n) + (if !u.Cancel? && u.id < n then u.quantity else 0)
  {
    if n > 0 {
      hide Roomy, PriceToIndex;
      SumMoves(o, u, n - 1);
    }
  }

  /** The quantity at the price of an update is a sum: it gains what is added, loses what is cancelled, and
      changes by what is modified. */
  lemma LevelMovesBy(o: Orders, u: Update)
    requires Trades(u) && Legal(o, u) && u.id < MAX_ORDER_IDS
    ensures var before, now := SumBelow(o, u.side, u.price, MAX_ORDER_IDS), SumBelow(Apply(o, u), u.side, u.price, MAX_ORDER_IDS);
      && (u.Add? ==> now == before + u.quantity)
      && (u.Modify? ==> now == before - o[u.id].quantity + u.quantity)
      && (u.Cancel? ==> now == before - o[u.id].quantity)
  {
    hide SumBelow, Roomy, PriceToIndex;
    SumMoves(o, u, MAX_ORDER_IDS);
  }

  // ----- Whole runs

  /** A book with one cached half and whether its last relevant event was an unflagged first order. */
  datatype Cached = Cached(orders: Orders, quote: Quote, stale: bool)

  ghost function Next(c: Cached, u: Update, s: Side): Cached {
    Cached(Apply(c.orders, u), Cache(c.orders, c.quote, u, s),
           if Touches(c.orders, u, s) then false else c.stale || First(c.orders, u, s))
  }

  ghost function After(c: Cached, us: seq<Update>, s: Side): Cached
    decreases us
  {
    if us == [] then c else After(Next(c, us[0], s), us[1..], s)
  }

  /** Trading updates at valid prices, each legal where it is applied. */
  ghost predicate TradingRun(o: Orders, us: seq<Update>)
    decreases us
  {
    us != [] ==>
      && Trades(us[0]) && Legal(o, us[0]) && us[0].id < MAX_ORDER_IDS && us[0].price != PRICE_INVALID
      && TradingRun(Apply(o, us[0]), us[1..])
  }

  ghost predicate PricesValid(o: Orders) {
    forall id :: id in o ==> o[id].price != PRICE_INVALID
  }

  ghost predicate CacheInvariant(c: Cached, s: Side) {
    && PricesValid(c.orders)
    && if c.stale then c.quote == NONE && Has(c.orders, s) else c.quote == QuoteOf(c.orders, s)
  }

  lemma QuoteIsSomething(o: Orders, s: Side)
    requires PricesValid(o) && Has(o, s)
    ensures QuoteOf(o, s) != NONE
  {
    hide SumBelow;
    var id :| id in o && o[id].side == s;
    BestPriceExists(o, s, id);
    var price :| IsBestPrice(o, s, price);
    QuoteIs(o, s, price);
  }

  /** A side that loses its only order was touched. */
  lemma UntouchedSideKeepsOrders(o: Orders, u: Update, s: Side)
    requires Trades(u) && Legal(o, u) && !Touches(o, u, s) && Has(o, s)
    ensures Has(Apply(o, u), s)
  {
    var id :| id in o && o[id].side == s;
    BestPriceExists(o, s, id);
    var price :| IsBestPrice(o, s, price);
    var k :| k in o && At(o[k], s, price);
    assert k in Apply(o, u) && Apply(o, u)[k].side == s;
  }

  lemma NextKeepsInvariant(c: Cached, u: Update, s: Side)
    requires CacheInvariant(c, s) && Trades(u) && Legal(c.orders, u) && u.id < MAX_ORDER_IDS && u.price != PRICE_INVALID
    ensures CacheInvariant(Next(c, u, s), s)
  {
    hide QuoteOf;
    var o := c.orders;
    assert PricesValid(Apply(o, u));
    if !Touches(o, u, s) {
      if First(o, u, s) {
        NoQuote(o, s);
        assert u.id in Apply(o, u) && Apply(o, u)[u.id].side == s;
      } else if c.stale {
        UntouchedSideKeepsOrders(o, u, s);
      } else {
        QuoteUnaffected(o, u, s);
      }
    }
  }

  /** In every run, the cached half is right if and only if its last relevant event was not an
      unflagged first order; any later touch at or ahead of the best price repairs it. */
  lemma {:induction false} CacheOverRuns(c: Cached, us: seq<Update>, s: Side)
    requires CacheInvariant(c, s) && TradingRun(c.orders, us)
    ensures var c' := After(c, us, s); c'.quote == QuoteOf(c'.orders, s) <==> !c'.stale
    decreases us
  {
    hide QuoteOf, Next, Legal;
    if us == [] {
      if c.stale {
        QuoteIsSomething(c.orders, s);
      }
    } else {
      NextKeepsInvariant(c, us[0], s);
      NextOrders(c, us[0], s);
      CacheOverRuns(Next(c, us[0], s), us[1..], s);
    }
  }

  lemma NextOrders(c: Cached, u: Update, s: Side)
    ensures Next(c, u, s).orders == Apply(c.orders, u)
  {
  }

  // ----- Whole runs with CLEAR

  /** The last event that mattered to a side: one at or ahead of its best price, whose flag was raised, or an
      unflagged one, with the quote the side had after it. */
  datatype LastEvent = Touched | Became(quote: Quote)

  datatype Watched = Watched(orders: Orders, quote: Quote, last: LastEvent)

  ghost function Watch(w: Watched, u: Update, s: Side): Watched {
    Watched(Apply(w.orders, u), Cache(w.orders, w.quote, u, s),
            if Touches(w.orders, u, s) then Touched
            else if First(w.orders, u, s) then Became(Quote(u.price, u.quantity))
            else if u.Clear? then Became(NONE)
            else w.last)
  }

  ghost function WatchAll(w: Watched, us: seq<Update>, s: Side): Watched
    decreases us
  {
    if us == [] then w else WatchAll(Watch(w, us[0], s), us[1..], s)
  }

  /** A book and a cached quote at the start of a run. */
  ghost function Initially(o: Orders, cached: Quote, s: Side): Watched {
    Watched(o, cached, Became(QuoteOf(o, s)))
  }

  /** The last event tells what the quote of the side is. */
  ghost predicate Informed(w: Watched, s: Side) {
    QuoteOf(w.orders, s) == if w.last.Touched? then w.quote else w.last.quote
  }

  lemma WatchKeepsInformed(w: Watched, u: Update, s: Side)
    requires Informed(w, s) && Legal(w.orders, u) && (Trades(u) ==> u.id < MAX_ORDER_IDS)
    ensures Informed(Watch(w, u, s), s)
  {
    hide QuoteOf;
    var o := w.orders;
    if u.Clear? {
      NoQuote(map[], s);
    } else if Trades(u) && !Touches(o, u, s) {
      if First(o, u, s) {
        FirstQuote(o, u, s);
      } else {
        QuoteUnaffected(o, u, s);
      }
    }
  }

  lemma {:induction false} WatchSnoc(w: Watched, us: seq<Update>, u: Update, s: Side)
    ensures WatchAll(w, us + [u], s) == Watch(WatchAll(w, us, s), u, s)
    decreases us
  {
    hide Watch;
    if us == [] {
      assert [u][1..] == [] && us + [u] == [u];
    } else {
      WatchSnoc(Watch(w, us[0], s), us[1..], u, s);
      assert (us + [u])[1..] == us[1..] + [u];
    }
  }

  lemma {:induction false} WatchAllKeepsInformed(w: Watched, us: seq<Update>, o: Orders, s: Side)
    requires Informed(w, s) && Replays(w.orders, us, o)
    requires forall i :: 0 <= i < |us| && Trades(us[i]) ==> us[i].id < MAX_ORDER_IDS
    ensures Informed(WatchAll(w, us, s), s) && WatchAll(w, us, s).orders == o
    decreases us
  {
    if us != [] {
      hide Informed, Legal, Apply;
      WatchKeepsInformed(w, us[0], s);
      WatchedOrders(w, us[0], s);
      hide Watch;
      WatchAllKeepsInformed(Watch(w, us[0], s), us[1..], o, s);
    }
  }

  lemma WatchedOrders(w: Watched, u: Update, s: Side)
    ensures Watch(w, u, s).orders == Apply(w.orders, u)
  {
  }

  /** In every run of legal updates, CLEARs included, and from any cached quote: the cached quote is right in
      the end if and only if the last event that mattered raised the flag, or it left the side with the very
      quote that is cached. */
  lemma CacheOverAllRuns(o: Orders, cached: Quote, us: seq<Update>, o': Orders, s: Side)
    requires Replays(o, us, o') && forall i :: 0 <= i < |us| && Trades(us[i]) ==> us[i].id < MAX_ORDER_IDS
    ensures var w := WatchAll(Initially(o, cached, s), us, s);
      w.quote == QuoteOf(o', s) <==> w.last == Touched || w.last == Became(w.quote)
  {
    hide WatchAll, Replays, QuoteOf;
    WatchAllKeepsInformed(Initially(o, cached, s), us, o', s);
  }
}

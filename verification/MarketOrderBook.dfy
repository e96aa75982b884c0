/**
 The trading client's copy of one ticker's book, rebuilt from public updates, with its cached best
 bid and offer.
 */
module MarketOrderBook {
  import opened Domain
  import opened Messages
  import opened Rings
  import opened MarketData
  import opened BestQuote
  import LevelBook
  import PublicFeed

  /** The ASSERTs of onMarketUpdate: an added order is new, a modified or cancelled one is known. */
  predicate Tolerated(o: Orders, u: Update)
    requires Trades(u)
  {
    u.Add? <==> u.id !in o
  }

  /** What the rings need of an added order: its index slot is free or its own level's, and it queues
      behind older orders. */
  predicate Placeable(o: Orders, u: Update)
    requires Trades(u)
  {
    u.Add? ==> forall k :: k in o && PriceToIndex(o[k].price) == PriceToIndex(u.price) ==>
      o[k].price == u.price && o[k].side == u.side && k < u.id
  }

  // ----- Sums along a queue

  lemma {:induction false} SumGap(o: Orders, s: Side, price: int, a: nat, b: nat)
    requires a <= b && forall k :: a <= k < b && k in o ==> !At(o[k], s, price)
    ensures SumBelow(o, s, price, b) == SumBelow(o, s, price, a)
    decreases b - a
  {
    if a < b {
      SumGap(o, s, price, a, b - 1);
    }
  }

  /** `ids` lists, in ascending order, the orders of `o` at one price of one side. */
  ghost predicate Lists(ids: seq<nat>, o: Orders, s: Side, price: int) {
    && |ids| > 0
    && (forall i, j :: 0 <= i < j < |ids| ==> ids[i] < ids[j])
    && (forall i :: 0 <= i < |ids| ==> ids[i] < MAX_ORDER_IDS && ids[i] in o && At(o[ids[i]], s, price))
    && (forall k :: k in o && At(o[k], s, price) ==> exists i :: 0 <= i < |ids| && ids[i] == k)
  }

  lemma SumFirst(ids: seq<nat>, o: Orders, s: Side, price: int)
    requires Lists(ids, o, s, price)
    ensures SumBelow(o, s, price, ids[0] + 1) == o[ids[0]].quantity
  {
    SumGap(o, s, price, 0, ids[0]);
  }

  lemma NoneBetween(ids: seq<nat>, o: Orders, s: Side, price: int, i: nat)
    requires Lists(ids, o, s, price) && 0 < i < |ids|
    ensures ids[i - 1] < ids[i] && ids[i] in o && At(o[ids[i]], s, price)
    ensures forall k :: ids[i - 1] + 1 <= k < ids[i] && k in o ==> !At(o[k], s, price)
  {
  }

  lemma SumNext(ids: seq<nat>, o: Orders, s: Side, price: int, i: nat)
    requires Lists(ids, o, s, price) && 0 < i < |ids|
    ensures ids[i] in o && SumBelow(o, s, price, ids[i] + 1) == SumBelow(o, s, price, ids[i - 1] + 1) + o[ids[i]].quantity
  {
    hide Lists;
    NoneBetween(ids, o, s, price, i);
    SumGap(o, s, price, ids[i - 1] + 1, ids[i]);
  }

  lemma SumLast(ids: seq<nat>, o: Orders, s: Side, price: int)
    requires Lists(ids, o, s, price)
    ensures SumBelow(o, s, price, MAX_ORDER_IDS) == SumBelow(o, s, price, ids[|ids| - 1] + 1)
  {
    hide SumBelow;
    SumGap(o, s, price, ids[|ids| - 1] + 1, MAX_ORDER_IDS);
  }

  // ----- Snapshots

  lemma {:induction false} AddsAreOrders(o: Orders, t: nat, n: nat)
    ensures forall u :: u in AddsBelow(o, t, n) ==> u.Add? && u.id in o
  {
    if n > 0 {
      AddsAreOrders(o, t, n - 1);
    }
  }

  /** The orders of a snapshot can be applied one after another to an empty book, and give it back. */
  lemma {:induction false} AddsReplay(o: Orders, t: nat, n: nat)
    requires PublicBook(o)
    ensures Replays(map[], AddsBelow(o, t, n), OrdersBelow(o, n))
  {
    hide Replays, Legal, PublicBook, OrdersBelow, Apply, Roomy, Prices;
    OrdersBelowStep(o, n);
    if n > 0 {
      AddsReplay(o, t, n - 1);
      if n - 1 in o {
        var u := AddOf(t, n - 1, o[n - 1]);
        NextAddFits(o, t, n - 1);
        PublicFeed.ReplaysOne(OrdersBelow(o, n - 1), u);
        ReplaysConcat(map[], AddsBelow(o, t, n - 1), OrdersBelow(o, n - 1), [u], OrdersBelow(o, n));
      } else {
        assert AddsBelow(o, t, n) == AddsBelow(o, t, n - 1);
      }
    } else {
      ReplaysNothing(map[]);
    }
  }

  lemma ReplaysNothing(o: Orders)
    ensures Replays(o, [], o)
  {
  }

  class Book {
    const book: LevelBook.Book
    var bid: Quote
    var ask: Quote

    ghost predicate Valid()
      reads book, book.priceIndex, book.levels, book.pool
      reads book.bidLevels`prev, book.bidLevels`next, book.askLevels`prev, book.askLevels`next
      ensures Valid() ==> book.Named()
    {
      var sound := book.Valid() && forall o :: o in book.pool ==> o.owner == Public(o.id) && o.id < MAX_ORDER_IDS;
      sound
    }

    constructor ()
      ensures Valid() && fresh(book) && fresh(book.priceIndex)
      ensures book.pool == {} && book.levels == {} && book.View() == map[] && bid == NONE && ask == NONE
    {
      book := new LevelBook.Book();
      bid, ask := NONE, NONE;
    }

    /** The orders of a level, by market id. */
    lemma LevelInView(l: Level)
      requires Valid() && l in book.levels
      ensures Fifo(l) && Lists(Ids(l.queue), book.View(), l.side, l.price)
      ensures forall i :: 0 <= i < |l.queue| ==> l.queue[i].id in book.View() && book.View()[l.queue[i].id].quantity == l.queue[i].quantity
    {
      hide LevelBook.Book.Valid, LevelBook.Book.View, OrderNext, OrderPrev, Lists, Distinct;
      book.QueueIsComplete(l);
      var o, q := book.View(), l.queue;
      forall i | 0 <= i < |q| ensures q[i].id in o && o[q[i].id] == q[i].Data() && q[i].id < MAX_ORDER_IDS {
        assert q[i] in q;
        book.ViewAt(q[i]);
      }
      forall k | k in o && At(o[k], l.side, l.price) ensures exists i :: 0 <= i < |q| && q[i].id == k {
        var x := OrderOf(k);
        var i :| 0 <= i < |q| && q[i] == x;
      }
      QueueLists(q, o, l.side, l.price);
    }

    /** The live order with a market id. */
    ghost function OrderOf(k: nat): (x: Order)
      requires book.Named() && k in book.View()
      reads book`pool, book.pool`quantity
      ensures x in book.pool && x.id == k && book.View()[k] == x.Data()
    {
      var x :| x in book.pool && x.id == k; x
    }

    static lemma QueueLists(q: seq<Order>, o: Orders, s: Side, price: int)
      requires |q| > 0 && IdsAscend(q) && AllAt(q, s, price)
      requires forall i :: 0 <= i < |q| ==> q[i].id in o && o[q[i].id] == q[i].Data() && q[i].id < MAX_ORDER_IDS
      requires forall k :: k in o && At(o[k], s, price) ==> exists i :: 0 <= i < |q| && q[i].id == k
      ensures Lists(Ids(q), o, s, price)
    {
      forall k | k in o && At(o[k], s, price) ensures exists i :: 0 <= i < |Ids(q)| && Ids(q)[i] == k {
        var i :| 0 <= i < |q| && q[i].id == k;
        assert Ids(q)[i] == k;
      }
    }

    /** The summing loop of updateBBO. */
    method LevelQuantity(l: Level) returns (sum: nat)
      requires Valid() && l in book.levels
      ensures sum == SumBelow(book.View(), l.side, l.price, MAX_ORDER_IDS)
    {
      hide LevelBook.Book.Valid, SumBelow, LevelBook.Book.View, Lists;
      LevelInView(l);
      ghost var o, q, ids, i := book.View(), l.queue, Ids(l.queue), 1;
      SumFirst(ids, o, l.side, l.price);
      sum := l.first.quantity;
      var order := l.first.next;
      while order != l.first
        invariant 1 <= i <= |q| && order == q[if i == |q| then 0 else i]
        invariant sum == SumBelow(o, l.side, l.price, ids[i - 1] + 1)
        decreases |q| - i
      {
        SumNext(ids, o, l.side, l.price, i);
        sum := sum + order.quantity;
        order, i := order.next, i + 1;
      }
      SumLast(ids, o, l.side, l.price);
    }

    /** The best price of a side of the view is the price of the top level. */
    lemma TopInView(s: Side)
      requires Valid()
      ensures book.Top(s) == null ==> !Has(book.View(), s)
      ensures book.Top(s) != null ==>
        book.Top(s) in book.levels && book.Top(s).side == s && IsBestPrice(book.View(), s, book.Top(s).price)
    {
      hide LevelBook.Book.Structured;
      book.TopIsBest(s);
      if book.Top(s) != null {
        var o := book.Top(s).first;
        book.QueueIsComplete(book.Top(s));
        assert o.id in book.View() && At(book.View()[o.id], s, o.price);
      }
    }

    /** One half of updateBBO. */
    method Recompute(s: Side) returns (q: Quote)
      requires Valid()
      ensures q == QuoteOf(book.View(), s)
    {
      hide LevelBook.Book.Valid, LevelBook.Book.View, SumBelow, Valid, QuoteOf, IsBestPrice;
      TopInView(s);
      var l := book.Top(s);
      if l == null {
        NoQuote(book.View(), s);
        q := NONE;
      } else {
        var sum := LevelQuantity(l);
        QuoteIs(book.View(), s, l.price);
        q := Quote(l.price, sum);
      }
    }

    /** A flag of onMarketUpdate. */
    method Flag(s: Side, u: Update) returns (flag: bool)
      requires Valid() && Trades(u)
      ensures flag <==> Touches(book.View(), u, s)
    {
      hide LevelBook.Book.Valid, LevelBook.Book.View;
      TopInView(s);
      var l := book.Top(s);
      flag := l != null && u.side == s && !Better(s, l.price, u.price);
    }

    lemma InPool(u: Update)
      requires Valid() && u.Add? && u.id !in book.View()
      ensures Public(u.id) !in book.index
      ensures forall x :: x in book.pool ==> x.id != u.id
    {
      hide LevelBook.Book.Structured;
      forall x | x in book.pool ensures x.id in book.View() {
        book.ViewAt(x);
      }
    }

    lemma PlaceableInView(o: Order, u: Update)
      requires Valid() && u.Add? && o.price == u.price && o.side == u.side && o.id == u.id
      ensures book.Placeable(o) <==> Placeable(book.View(), u)
    {
      hide LevelBook.Book.Structured;
      forall x | x in book.pool
        ensures x.id in book.View() && book.View()[x.id].price == x.price && book.View()[x.id].side == x.side
      {
        book.ViewAt(x);
      }
    }

    /** The level in the order's index slot tells whether the order is placeable. */
    lemma SlotDecides(u: Update)
      requires Valid() && u.Add?
      ensures book.priceIndex.Length == MAX_PRICE_LEVELS
      ensures var l := book.priceIndex[PriceToIndex(u.price)];
        if l == null then Placeable(book.View(), u)
        else
          && l.first.prev != null
          && (Placeable(book.View(), u) <==> l.side == u.side && l.price == u.price && l.first.prev.id < u.id)
    {
      hide LevelBook.Book.Ladders;
      book.SlotInView(PriceToIndex(u.price));
      var l := book.priceIndex[PriceToIndex(u.price)];
      if l != null {
        book.TailIsLast(l);
        book.ViewAt(l.first.prev);
        forall k | k in book.View() && PriceToIndex(book.View()[k].price) == PriceToIndex(u.price)
          ensures book.View()[k].price == l.price && book.View()[k].side == l.side && k <= l.first.prev.id
        {
          var x :| x in book.pool && x.id == k;
        }
      }
    }

    /** Whether the level in the index slot is the right one; the source does not ask. */
    method SlotFits(u: Update) returns (fits: bool)
      requires Valid() && u.Add?
      ensures fits <==> Placeable(book.View(), u)
    {
      SlotDecides(u);
      hide LevelBook.Book.Valid, LevelBook.Book.View, Placeable;
      var l := book.priceIndex[PriceToIndex(u.price)];
      fits := l == null || (l.side == u.side && l.price == u.price && l.first.prev.id < u.id);
    }

    lemma AboutToAdd(o: Order, u: Update)
      requires Valid() && u.Add? && u.id !in book.View() && o.price == u.price && o.side == u.side && o.id == u.id
      ensures Public(u.id) !in book.index && (forall x :: x in book.pool ==> x.id != u.id)
      ensures book.priceIndex.Length == MAX_PRICE_LEVELS && (book.HasRoom(o) <==> RoomFor(book.View(), u.price))
      ensures book.Placeable(o) <==> Placeable(book.View(), u)
    {
      hide LevelBook.Book.Valid, LevelBook.Book.View, LevelBook.Book.Placeable, LevelBook.Book.HasRoom, Placeable, RoomFor;
      InPool(u);
      PlaceableInView(o, u);
      book.RoomInView(o);
    }

    /** The ADD branch; `ok` is false when a memory pool runs out. The order is appended to whatever level
        its index slot holds, and the book is sound afterwards exactly if that was the right one. */
    method AddOrder(u: Update) returns (ok: bool)
      requires Valid() && u.Add? && u.id !in book.View() && u.id < MAX_ORDER_IDS
      modifies book, book.priceIndex, book.levels, book.pool`prev, book.pool`next
      ensures ok <==> RoomFor(old(book.View()), u.price)
      ensures ok ==> book.Named() && book.View() == Apply(old(book.View()), u)
      ensures ok ==> (Valid() <==> Placeable(old(book.View()), u))
      ensures ok ==> fresh(book.pool - old(book.pool)) && fresh(book.levels - old(book.levels))
    {
      hide LevelBook.Book.Valid, LevelBook.Book.Named, LevelBook.Book.View, LevelBook.Book.Placeable, LevelBook.Book.HasRoom;
      hide LevelBook.Exact, Placeable, RoomFor;
      var o := new Order(u.id, Public(u.id), u.side, u.price, u.quantity, u.priority);
      AboutToAdd(o, u);
      ok := book.AddOrder(o);
      if ok {
        book.ViewWith(o);
      }
    }

    lemma Known(id: nat)
      requires Valid()
      ensures id in book.View() <==> Public(id) in book.index
      ensures id in book.View() ==> book.index[Public(id)] in book.pool && book.index[Public(id)].id == id
    {
      hide LevelBook.Book.Structured;
    }

    /** The MODIFY branch. */
    method ModifyOrder(u: Update)
      requires Valid() && u.Modify? && u.id in book.View()
      modifies book.pool`quantity
      ensures Valid() && book.View() == Apply(old(book.View()), u)
    {
      hide LevelBook.Book.Valid, LevelBook.Book.Named, LevelBook.Book.View, LevelBook.Exact;
      Known(u.id);
      var o := book.index[Public(u.id)];
      book.ViewAt(o);
      o.quantity := u.quantity;
      book.ViewRequantified(o);
    }

    /** The CANCEL branch. */
    method CancelOrder(u: Update)
      requires Valid() && u.Cancel? && u.id in book.View()
      modifies book, book.priceIndex, book.levels, book.pool`prev, book.pool`next
      ensures Valid() && book.pool <= old(book.pool) && book.levels <= old(book.levels)
      ensures book.View() == Apply(old(book.View()), u)
    {
      hide LevelBook.Book.Valid, LevelBook.Book.Named, LevelBook.Book.View, LevelBook.Exact;
      Known(u.id);
      var o := book.index[Public(u.id)];
      book.RemoveOrder(o);
      book.ViewWithout(o);
    }

    /** The switch of onMarketUpdate. */
    method ApplyUpdate(u: Update) returns (ok: bool, sound: bool)
      requires Valid() && Trades(u) && u.id < MAX_ORDER_IDS && Tolerated(book.View(), u)
      modifies book, book.priceIndex, book.levels, book.pool
      ensures ok <==> (u.Add? ==> RoomFor(old(book.View()), u.price))
      ensures sound <==> Placeable(old(book.View()), u)
      ensures ok ==> book.Named() && book.View() == Apply(old(book.View()), u) && (Valid() <==> sound)
      ensures ok ==> fresh(book.pool - old(book.pool)) && fresh(book.levels - old(book.levels))
    {
      hide LevelBook.Book.Valid, LevelBook.Book.Named, LevelBook.Book.View, Valid, Apply, RoomFor;
      ok, sound := true, true;
      match u {
        case Add(_, _, _, _, _, _) =>
          sound := SlotFits(u);
          ok := AddOrder(u);
        case Modify(_, _, _, _, _, _) => ModifyOrder(u);
        case Cancel(_, _, _, _, _, _) => CancelOrder(u);
      }
    }

    /** onMarketUpdate for the trading updates; `ok` is false when an ASSERT fires, those of the memory
        pools included. An ADD whose index slot holds a level of another price or side, or a newer order, is
        taken by the source and leaves an unsound book; the quotes are followed no further then. */
    method OnMarketUpdate(u: Update) returns (ok: bool, sound: bool)
      requires Valid() && Trades(u) && u.id < MAX_ORDER_IDS
      modifies this, book, book.priceIndex, book.levels, book.pool
      ensures ok <==> Tolerated(old(book.View()), u) && (u.Add? ==> RoomFor(old(book.View()), u.price))
      ensures ok ==> book.Named() && book.View() == Apply(old(book.View()), u)
      ensures ok ==> (sound <==> Placeable(old(book.View()), u)) && (Valid() <==> sound)
      ensures ok ==> fresh(book.pool - old(book.pool)) && fresh(book.levels - old(book.levels))
      ensures ok && sound ==>
        bid == Cache(old(book.View()), old(bid), u, Buy) && ask == Cache(old(book.View()), old(ask), u, Sell)
    {
      hide LevelBook.Book.Valid, LevelBook.Book.Named, LevelBook.Book.View, Valid, Touches, QuoteOf, Apply, Placeable, RoomFor;
      var bidUpdated := Flag(Buy, u);
      var askUpdated := Flag(Sell, u);
      Known(u.id);
      ok, sound := if u.Add? then Public(u.id) !in book.index else Public(u.id) in book.index, false;
      if !ok {
        return;
      }
      ok, sound := ApplyUpdate(u);
      if !ok || !sound {
        return;
      }
      if bidUpdated {
        bid := Recompute(Buy);
      }
      if askUpdated {
        ask := Recompute(Sell);
      }
    }

    /** A legal update trips no ASSERT and keeps the book sound. */
    lemma LegalIsTaken(u: Update)
      requires Valid() && Trades(u) && Legal(book.View(), u)
      ensures Tolerated(book.View(), u) && Placeable(book.View(), u) && (u.Add? ==> RoomFor(book.View(), u.price))
    {
      hide LevelBook.Book.Valid, LevelBook.Book.View, RoomFor, Roomy;
      book.CountsInView();
      if u.Add? {
        RoomForIs(book.View(), u.id, Resting(Public(u.id), u.side, u.price, u.quantity, u.priority));
      }
    }

    /** How far a stream goes before a CLEAR finds orders. */
    static function SoundLength(o: Orders, us: seq<Update>): (n: nat)
      ensures n <= |us|
      decreases us
    {
      if us == [] || (us[0].Clear? && o != map[]) then 0 else 1 + SoundLength(Apply(o, us[0]), us[1..])
    }

    /** One update of a legal stream. `ok` is false when an ASSERT fires, `sound` when a CLEAR finds orders. */
    method ReplayOne(u: Update) returns (ok: bool, sound: bool)
      requires Valid() && Legal(book.View(), u) && (Trades(u) ==> u.id < MAX_ORDER_IDS)
      modifies this, book, book.priceIndex, book.levels, book.pool
      ensures ok
      ensures sound <==> !(u.Clear? && old(book.View()) != map[])
      ensures Valid() <==> sound
      ensures book.Named() && book.View() == Apply(old(book.View()), u)
      ensures fresh(book.pool - old(book.pool)) && fresh(book.levels - old(book.levels))
      ensures bid == Cache(old(book.View()), old(bid), u, Buy) && ask == Cache(old(book.View()), old(ask), u, Sell)
    {
      hide LevelBook.Book.Valid, LevelBook.Book.Named, LevelBook.Book.View, Valid, Apply, Cache, Legal, Placeable, RoomFor, Tolerated;
      UncachedUpdate(book.View(), bid, u, Buy);
      UncachedUpdate(book.View(), ask, u, Sell);
      if Trades(u) {
        LegalIsTaken(u);
        ok, sound := OnMarketUpdate(u);
      } else if u.Clear? {
        EmptyPool();
        ApplyClear(book.View(), u);
        ok, sound := true, book.index == map[];
        OnClear();
      } else {
        ApplyMarker(book.View(), u);
        NamedIsValid();
        ok, sound := true, true;
      }
    }

    static lemma UncachedUpdate(o: Orders, cached: Quote, u: Update, s: Side)
      ensures !Trades(u) ==> Cache(o, cached, u, s) == cached
    {
    }

    lemma NamedIsValid()
      requires Valid()
      ensures book.Named()
    {
    }

    /** Replays a legal stream, CLEARs included, up to and with the first CLEAR that finds orders: no ASSERT
        fires; it goes to the end, and leaves a sound book, exactly if no CLEAR finds orders; and the cached
        quotes are those that watching the stream gives. */
    method Replay(us: seq<Update>, ghost o: Orders) returns (ok: bool, n: nat)
      requires Valid() && Replays(book.View(), us, o)
      requires forall i :: 0 <= i < |us| ==> (Trades(us[i]) ==> us[i].id < MAX_ORDER_IDS)
      modifies this, book, book.priceIndex, book.levels, book.pool
      ensures ok && n == SoundLength(old(book.View()), us)
      ensures Valid() <==> n == |us|
      ensures n == |us| ==> book.View() == o
      ensures n < |us| ==> us[n].Clear? && book.Named() && book.View() == map[]
      ensures bid == WatchAll(Initially(old(book.View()), old(bid), Buy), us[..n], Buy).quote
      ensures ask == WatchAll(Initially(old(book.View()), old(ask), Sell), us[..n], Sell).quote
    {
      hide LevelBook.Book.Valid, LevelBook.Book.Named, LevelBook.Book.View, Valid, Apply, Cache, Legal, WatchAll, QuoteOf;
      ghost var bids, asks := Initially(book.View(), bid, Buy), Initially(book.View(), ask, Sell);
      assert us[0..] == us && us[..0] == [];
      WatchNothing(bids, Buy);
      WatchNothing(asks, Sell);
      n, ok := 0, true;
      while n < |us|
        invariant n <= |us| && ok && Valid() && Replays(book.View(), us[n..], o)
        invariant SoundLength(old(book.View()), us) == n + SoundLength(book.View(), us[n..])
        invariant fresh(book.pool - old(book.pool)) && fresh(book.levels - old(book.levels))
        invariant Shows(WatchAll(bids, us[..n], Buy), bid) && Shows(WatchAll(asks, us[..n], Sell), ask)
      {
        assert us[n..][0] == us[n] && us[n..][1..] == us[n + 1..] && us[..n + 1] == us[..n] + [us[n]];
        ShowsNext(bids, us[..n], us[n], bid, Buy);
        ShowsNext(asks, us[..n], us[n], ask, Sell);
        UncachedUpdate(book.View(), bid, us[n], Buy);
        UncachedUpdate(book.View(), ask, us[n], Sell);
        ghost var orders := book.View();
        var sound;
        ok, sound := ReplayOne(us[n]);
        if !sound {
          ApplyClear(orders, us[n]);
          return;
        }
        n := n + 1;
      }
      assert us[|us|..] == [];
    }

    /** A watcher of this book that shows the cached quote. */
    ghost predicate Shows(w: Watched, cached: Quote)
      requires book.Named()
      reads book`pool, book.pool`quantity
    {
      w.orders == book.View() && w.quote == cached
    }

    static lemma WatchNothing(w: Watched, s: Side)
      ensures WatchAll(w, [], s) == w
    {
    }

    lemma ShowsNext(w: Watched, us: seq<Update>, u: Update, cached: Quote, s: Side)
      requires book.Named() && Shows(WatchAll(w, us, s), cached)
      ensures var w' := WatchAll(w, us + [u], s);
        w'.orders == Apply(book.View(), u) && w'.quote == Cache(book.View(), cached, u, s)
    {
      hide WatchAll;
      WatchSnoc(w, us, u, s);
    }

    static lemma ApplyClear(o: Orders, u: Update)
      requires u.Clear?
      ensures Apply(o, u) == map[]
    {
    }

    static lemma ApplyMarker(o: Orders, u: Update)
      requires !Trades(u) && !u.Clear?
      ensures Apply(o, u) == o
    {
    }

    /** CLEAR for this book: it carries no side, so the cached quotes stay. */
    method OnClear()
      requires Valid()
      modifies book
      ensures book.Named() && book.View() == map[] && book.pool == {} && book.levels == {}
      ensures Valid() <==> old(book.pool) == {}
    {
      book.Clear();
    }

    /** A ticker's part of a snapshot, replayed into an empty book, rebuilds the published orders. */
    method ReplaySnapshot(us: seq<Update>, ghost o: Orders, ghost t: nat)
      requires Valid() && book.View() == map[] && PublicBook(o) && us == [Clear(t)] + AddsBelow(o, t, MAX_ORDER_IDS)
      modifies this, book, book.priceIndex, book.levels, book.pool
      ensures Valid() && book.View() == o
    {
      hide LevelBook.Book.Valid, LevelBook.Book.Named, LevelBook.Book.View, Valid, Legal;
      AddsReplay(o, t, MAX_ORDER_IDS);
      AddsAreOrders(o, t, MAX_ORDER_IDS);
      assert OrdersBelow(o, MAX_ORDER_IDS) == o;
      var adds := us[1..];
      assert adds == AddsBelow(o, t, MAX_ORDER_IDS);
      assert forall i :: 0 <= i < |adds| ==> adds[i] in adds;
      NoClears(map[], adds);
      LegalClear(us, o);
      var ok, n := Replay(us, o);
    }

    static lemma {:induction false} NoClears(o: Orders, us: seq<Update>)
      requires forall i :: 0 <= i < |us| ==> !us[i].Clear?
      ensures SoundLength(o, us) == |us|
      decreases us
    {
      if us != [] {
        NoClears(Apply(o, us[0]), us[1..]);
      }
    }

    static lemma LegalClear(us: seq<Update>, o: Orders)
      requires us != [] && us[0].Clear? && Replays(map[], us[1..], o)
      ensures Replays(map[], us, o)
      ensures SoundLength(map[], us[1..]) == |us| - 1 ==> SoundLength(map[], us) == |us|
    {
    }

    lemma EmptyPool()
      requires Valid()
      ensures book.pool == {} <==> book.View() == map[]
      ensures book.pool == {} <==> book.index == map[]
    {
      hide LevelBook.Book.Structured;
      if x :| x in book.pool {
        book.ViewAt(x);
      }
    }
  }
}

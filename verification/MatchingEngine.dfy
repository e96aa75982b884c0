/**
 The exchange's order book for one ticker: the pointer book, the market id counter and the two
 outgoing streams. Every operation is proved to do what the reference book of PriceTime does.
 */
module MatchingEngine {
  import opened Domain
  import opened Messages
  import opened Rings
  import LevelBook
  import PriceTime
  import ExchangeRuns

  class OrderBook {
    const ticker: nat
    const book: LevelBook.Book
    var nextMarketOrderId: nat
    var responses: seq<Response>
    var updates: seq<Update>

    ghost predicate Valid()
      reads this, book, book.priceIndex, book.levels, book.pool
      reads book.bidLevels`prev, book.bidLevels`next, book.askLevels`prev, book.askLevels`next
      ensures Valid() ==> book.Named()
    {
      var sound := book.Valid() && forall o :: o in book.pool ==>
        o.owner.Owner? && o.owner.client < MAX_CLIENTS && o.id < nextMarketOrderId;
      sound
    }

    ghost function View(): PriceTime.Book
      requires book.Named()
      reads this, book`pool, book.pool`quantity
    {
      PriceTime.Book(ticker, book.View(), nextMarketOrderId)
    }

    constructor (ticker: nat)
      ensures Valid() && fresh(book) && fresh(book.priceIndex) && book.pool == {} && book.levels == {}
      ensures View() == PriceTime.Book(ticker, map[], 1) && responses == [] && updates == []
    {
      this.ticker := ticker;
      book := new LevelBook.Book();
      nextMarketOrderId, responses, updates := 1, [], [];
    }

    /** removeOrder. */
    method Drop(o: Order)
      requires Valid() && o in book.pool
      modifies book, book.priceIndex, book.levels, book.pool`prev, book.pool`next
      ensures Valid() && book.pool == old(book.pool) - {o} && book.levels <= old(book.levels)
      ensures book.View() == old(book.View()) - {o.id}
    {
      hide LevelBook.Book.Valid, LevelBook.Book.Named, LevelBook.Book.View, LevelBook.Exact;
      book.RemoveOrder(o);
      book.ViewWithout(o);
    }

    /** The body of match: the pointer and quantity updates, and the messages. */
    method TradeNode(t: PriceTime.Taker, o: Order, leaves: nat) returns (rest: nat)
      requires Valid() && o in book.pool && t.owner.Owner? && t.ticker == ticker
      modifies `responses, `updates, book, book.priceIndex, book.levels, book.pool
      ensures Valid() && book.levels <= old(book.levels)
      ensures book.pool == if o.quantity == 0 then old(book.pool) - {o} else old(book.pool)
      ensures forall x :: x in old(book.pool) && x != o ==> x.quantity == old(x.quantity)
      ensures var q := PriceTime.Min(old(o.quantity), leaves);
        && o.quantity == old(o.quantity) - q && rest == leaves - q
        && responses == old(responses) + [
          Response(Filled, t.owner.client, ticker, t.owner.orderId, t.id, Some(t.side), o.price, q, leaves - q),
          Response(Filled, o.owner.client, ticker, o.owner.orderId, o.id, Some(o.side), o.price, q, o.quantity)]
        && updates == old(updates) + [
          if o.quantity == 0 then Update.Cancel(ticker, o.id, o.side, o.price, old(o.quantity), PRIORITY_INVALID)
          else Modify(ticker, o.id, o.side, o.price, o.quantity, o.priority)]
    {
      hide LevelBook.Book.Valid, LevelBook.Exact, LevelBook.Book.Named, LevelBook.Book.Counted;
      var quantity := o.quantity;
      var fill := PriceTime.Min(quantity, leaves);
      rest := leaves - fill;
      o.quantity := o.quantity - fill;
      responses := responses + [
        Response(Filled, t.owner.client, ticker, t.owner.orderId, t.id, Some(t.side), o.price, fill, rest),
        Response(Filled, o.owner.client, ticker, o.owner.orderId, o.id, Some(o.side), o.price, fill, o.quantity)];
      if o.quantity == 0 {
        updates := updates + [Update.Cancel(ticker, o.id, o.side, o.price, quantity, PRIORITY_INVALID)];
        book.RemoveOrder(o);
      } else {
        updates := updates + [Modify(ticker, o.id, o.side, o.price, o.quantity, o.priority)];
      }
    }

    /** match: one trade with the resting order `o`. */
    method Trade(t: PriceTime.Taker, o: Order, leaves: nat) returns (rest: nat)
      requires Valid() && o in book.pool && t.owner.Owner? && t.ticker == ticker
      modifies `responses, `updates, book, book.priceIndex, book.levels, book.pool
      ensures Valid() && book.pool <= old(book.pool) && book.levels <= old(book.levels)
      ensures leaves > 0 ==> rest < leaves || book.pool < old(book.pool)
      ensures var f := PriceTime.Fill(old(book.View()), t, o.id, leaves);
        && book.View() == f.orders && rest == f.leaves
        && responses == old(responses) + f.responses && updates == old(updates) + f.updates
    {
      hide LevelBook.Book.Valid, LevelBook.Book.Named, LevelBook.Book.View;
      book.ViewAt(o);
      rest := TradeNode(t, o, leaves);
      if o.quantity == 0 {
        book.ViewWithout(o);
      } else {
        book.ViewRequantified(o);
      }
    }

    lemma TopRefinesBest(s: Side)
      requires Valid()
      ensures book.Top(s) == null ==> PriceTime.Best(book.View(), s) == None
      ensures book.Top(s) != null ==>
        var o := book.Top(s).first;
        && o in book.pool && PriceTime.IsBest(book.View(), s, o.id)
        && o.id in book.View() && book.View()[o.id].price == o.price && book.View()[o.id].owner.Owner?
    {
      hide LevelBook.Book.Structured;
      book.TopIsBest(s);
    }

    lemma ViewOwned()
      requires Valid()
      ensures PriceTime.Owned(book.View())
    {
    }

    /** checkForMatch: trades until the taker is done or no acceptable order is left. */
    method CheckForMatch(t: PriceTime.Taker, quantity: nat) returns (leaves: nat)
      requires Valid() && t.owner.Owner? && t.ticker == ticker
      modifies `responses, `updates, book, book.priceIndex, book.levels, book.pool
      ensures Valid() && book.pool <= old(book.pool) && book.levels <= old(book.levels)
      ensures PriceTime.Owned(old(book.View()))
      ensures var m := PriceTime.Match(old(book.View()), t, quantity);
        && book.View() == m.orders && leaves == m.leaves
        && responses == old(responses) + m.responses && updates == old(updates) + m.updates
    {
      hide Valid, LevelBook.Book.Valid, LevelBook.Book.Named, LevelBook.Book.View;
      hide PriceTime.Fill, PriceTime.Match, PriceTime.Continues, PriceTime.IsBest, PriceTime.Owned;
      ViewOwned();
      leaves := quantity;
      ghost var m, rs, us := PriceTime.Match(book.View(), t, quantity), [], [];
      PriceTime.ContinuesFromStart(m);
      while leaves > 0 && book.Top(Opposite(t.side)) != null
        invariant Valid() && book.pool <= old(book.pool) && book.levels <= old(book.levels)
        invariant PriceTime.Owned(book.View())
        invariant PriceTime.Continues(m, rs, us, PriceTime.Match(book.View(), t, leaves))
        invariant responses == old(responses) + rs && updates == old(updates) + us
        decreases book.pool, leaves
      {
        TopRefinesBest(Opposite(t.side));
        var o := book.Top(Opposite(t.side)).first;
        if !PriceTime.Crosses(t, o.price) {
          break;
        }
        PriceTime.ContinuesAfterTrade(m, rs, us, book.View(), t, leaves, o.id);
        ghost var f := PriceTime.Fill(book.View(), t, o.id, leaves);
        leaves := Trade(t, o, leaves);
        rs, us := rs + f.responses, us + f.updates;
      }
      TopRefinesBest(Opposite(t.side));
      PriceTime.ContinuesToEnd(m, rs, us, book.View(), t, leaves);
    }

    /** The level in a price's index slot gives the next priority there. */
    lemma SlotPriority(side: Side, price: int)
      requires Valid()
      requires forall x :: x in book.pool && PriceToIndex(x.price) == PriceToIndex(price) ==>
        x.price == price && x.side == side
      ensures book.priceIndex.Length == MAX_PRICE_LEVELS
      ensures var l := book.priceIndex[PriceToIndex(price)];
        if l == null then PriceTime.NextPriority(book.View(), side, price) == 1
        else l.first.prev != null && PriceTime.NextPriority(book.View(), side, price) == l.first.prev.priority + 1
    {
      book.LevelIsLive(PriceToIndex(price));
      book.SlotInView(PriceToIndex(price));
      var l := book.priceIndex[PriceToIndex(price)];
      if l != null {
        book.TailIsLast(l);
        var o := l.first.prev;
        hide LevelBook.Book.Structured, LevelBook.Exact;
        assert o.price == price && o.side == side by {
          book.SlotHoldsPrice(l);
        }
        book.ViewAt(o);
        forall k | k in book.View() && book.View()[k].side == side && book.View()[k].price == price ensures k <= o.id {
          var x :| x in book.pool && x.id == k;
        }
        PriceTime.NextPriorityIs(book.View(), side, price, o.id);
      }
    }

    /** getNextPriority. Asked only for a price whose index slot is free or holds that very level. */
    method GetNextPriority(ghost side: Side, price: int) returns (priority: nat)
      requires Valid()
      requires forall x :: x in book.pool && PriceToIndex(x.price) == PriceToIndex(price) ==>
        x.price == price && x.side == side
      ensures priority == PriceTime.NextPriority(book.View(), side, price)
    {
      hide Valid, LevelBook.Book.Valid, LevelBook.Book.View, PriceTime.NextPriority;
      SlotPriority(side, price);
      var l := book.priceIndex[PriceToIndex(price)];
      if l == null {
        return 1;
      }
      return l.first.prev.priority + 1;
    }

    /** Allocates the order and puts it into the book; `ok` is false when a memory pool runs out. */
    method QueueRest(t: PriceTime.Taker, leaves: nat, priority: nat) returns (ok: bool)
      requires Valid() && t.owner.Owner? && t.owner.client < MAX_CLIENTS && t.owner !in book.index
      requires t.id < nextMarketOrderId
      requires forall x :: x in book.pool ==> x.id < t.id
      requires forall x :: x in book.pool && PriceToIndex(x.price) == PriceToIndex(t.price) ==>
        x.price == t.price && x.side == t.side
      modifies book, book.priceIndex, book.levels, book.pool`prev, book.pool`next
      ensures ok <==> Roomy(old(book.View())[t.id := Resting(t.owner, t.side, t.price, leaves, priority)])
      ensures ok ==> Valid() && fresh(book.pool - old(book.pool)) && fresh(book.levels - old(book.levels))
      ensures ok ==> book.View() == old(book.View())[t.id := Resting(t.owner, t.side, t.price, leaves, priority)]
    {
      hide LevelBook.Book.Valid, LevelBook.Book.Named, LevelBook.Book.View, LevelBook.Book.Placeable, LevelBook.Book.HasRoom;
      hide LevelBook.Exact, Roomy;
      var o := new Order(t.id, t.owner, t.side, t.price, leaves, priority);
      RoomToRest(t, o);
      ok := book.AddOrder(o);
      if ok {
        book.ViewWith(o);
      }
    }

    /** The tail of add: queues what is left of the order and publishes it; `ok` is false when a memory
        pool runs out. */
    method Rest(t: PriceTime.Taker, leaves: nat) returns (ok: bool)
      requires Valid() && t.owner.Owner? && t.owner.client < MAX_CLIENTS && t.owner !in book.index
      requires t.ticker == ticker && t.id < nextMarketOrderId
      requires forall x :: x in book.pool ==> x.id < t.id
      requires forall x :: x in book.pool && PriceToIndex(x.price) == PriceToIndex(t.price) ==>
        x.price == t.price && x.side == t.side
      modifies `updates, book, book.priceIndex, book.levels, book.pool`prev, book.pool`next
      ensures ok ==> Valid() && fresh(book.pool - old(book.pool)) && fresh(book.levels - old(book.levels))
      ensures var priority := PriceTime.NextPriority(old(book.View()), t.side, t.price);
        var orders := old(book.View())[t.id := Resting(t.owner, t.side, t.price, leaves, priority)];
        && (ok <==> Roomy(orders))
        && (ok ==> book.View() == orders
                   && updates == old(updates) + [Update.Add(ticker, t.id, t.side, t.price, leaves, priority)])
    {
      hide LevelBook.Book.Valid, LevelBook.Book.Named, LevelBook.Book.View, LevelBook.Exact, PriceTime.NextPriority, Roomy;
      var priority := GetNextPriority(t.side, t.price);
      updates := updates + [Update.Add(ticker, t.id, t.side, t.price, leaves, priority)];
      ok := QueueRest(t, leaves, priority);
    }

    lemma RoomToRest(t: PriceTime.Taker, o: Order)
      requires Valid() && o.price == t.price && o.side == t.side && o.id == t.id
      requires forall x :: x in book.pool ==> x.id < t.id
      requires forall x :: x in book.pool && PriceToIndex(x.price) == PriceToIndex(t.price) ==>
        x.price == t.price && x.side == t.side
      ensures book.priceIndex.Length == MAX_PRICE_LEVELS && book.Placeable(o)
      ensures book.HasRoom(o) <==> Roomy(book.View()[t.id := o.Data()])
    {
      hide LevelBook.Book.Structured;
      book.RoomInView(o);
      book.CountsInView();
      forall k | k in book.View() && PriceToIndex(book.View()[k].price) == PriceToIndex(t.price)
        ensures book.View()[k].price == t.price
      {
        var x :| x in book.pool && x.id == k;
      }
      RoomForIs(book.View(), t.id, o.Data());
    }

    lemma AdmissibleInBook(r: Request)
      requires Valid() && r.NewOrder? && PriceTime.Admissible(View(), r)
      ensures forall x :: x in book.pool ==> x.owner != Owner(r.client, r.orderId)
      ensures forall x :: x in book.pool && PriceToIndex(x.price) == PriceToIndex(r.price) ==> x.price == r.price
    {
      hide LevelBook.Book.Structured;
      forall x | x in book.pool ensures x.id in View().orders && View().orders[x.id].owner == x.owner && View().orders[x.id].price == x.price {
        book.ViewAt(x);
      }
    }

    lemma OwnerIsNew(k: Owner)
      requires Valid() && forall x :: x in book.pool ==> x.owner != k
      ensures k !in book.index
    {
      hide LevelBook.Book.Structured;
    }

    /** Once nothing crosses, the orders at the taker's price are on its side. */
    lemma OwnSide(t: PriceTime.Taker)
      requires Valid() && PriceTime.Exhausted(book.View(), t)
      requires forall x :: x in book.pool && PriceToIndex(x.price) == PriceToIndex(t.price) ==> x.price == t.price
      ensures forall x :: x in book.pool && PriceToIndex(x.price) == PriceToIndex(t.price) ==>
        x.price == t.price && x.side == t.side
    {
      hide LevelBook.Book.Structured;
      forall x | x in book.pool && PriceToIndex(x.price) == PriceToIndex(t.price) ensures x.side == t.side {
        book.ViewAt(x);
      }
    }

    /** The head of add: the market id and the acknowledgement, with ticker and client in each other's
        place. */
    method Accept(client: nat, clientOrderId: nat, side: Side, price: int, quantity: nat) returns (t: PriceTime.Taker)
      requires Valid()
      modifies `nextMarketOrderId, `responses
      ensures Valid() && nextMarketOrderId == old(nextMarketOrderId) + 1
      ensures t == PriceTime.Taker(ticker, Owner(client, clientOrderId), old(nextMarketOrderId), side, price)
      ensures responses ==
        old(responses) + [Response(Accepted, ticker, client, clientOrderId, t.id, Some(side), price, 0, quantity)]
      ensures forall x :: x in book.pool ==> x.id < t.id
    {
      hide LevelBook.Book.Valid;
      t := PriceTime.Taker(ticker, Owner(client, clientOrderId), nextMarketOrderId, side, price);
      nextMarketOrderId := nextMarketOrderId + 1;
      responses := responses + [Response(Accepted, ticker, client, clientOrderId, t.id, Some(side), price, 0, quantity)];
    }

    /** add; `ok` is false when a memory pool runs out, which is exactly when it cannot hold the orders that
        would rest afterwards. */
    method Add(client: nat, clientOrderId: nat, side: Side, price: int, quantity: nat) returns (ok: bool)
      requires Valid() && PriceTime.Admissible(View(), NewOrder(client, clientOrderId, side, price, quantity))
      modifies this, book, book.priceIndex, book.levels, book.pool
      ensures ok ==> Valid() && fresh(book.pool - old(book.pool)) && fresh(book.levels - old(book.levels))
      ensures PriceTime.Owned(old(View()).orders)
      ensures var s := PriceTime.Submit(old(View()), Owner(client, clientOrderId), side, price, quantity);
        && (ok <==> Roomy(s.book.orders))
        && (ok ==> View() == s.book
                   && responses == old(responses) + s.responses && updates == old(updates) + s.updates)
    {
      hide Valid, LevelBook.Book.Valid, LevelBook.Book.View, PriceTime.Match, PriceTime.NextPriority, PriceTime.Owned;
      hide LevelBook.Exact, PriceTime.Exhausted, Roomy;
      AdmissibleInBook(NewOrder(client, clientOrderId, side, price, quantity));
      ViewOwned();
      ghost var orders := book.View();
      var t := Accept(client, clientOrderId, side, price, quantity);
      var leaves := CheckForMatch(t, quantity);
      if leaves > 0 {
        PriceTime.MatchIsComplete(orders, t, quantity);
        OwnSide(t);
        OwnerIsNew(t.owner);
        ok := Rest(t, leaves);
      } else {
        ValidIsRoomy();
        OwnedView();
        ok := true;
      }
    }

    lemma FoundByOwner(k: Owner)
      requires Valid()
      ensures k !in book.index ==> forall id :: !PriceTime.OwnedBy(book.View(), k, id)
      ensures k in book.index ==>
        var o := book.index[k];
        && o in book.pool && o.owner == k && k.Owner? && k.client < MAX_CLIENTS
        && forall id :: PriceTime.OwnedBy(book.View(), k, id) <==> id == o.id
    {
      hide LevelBook.Book.Structured;
    }

    /** cancel. */
    method Cancel(client: nat, orderId: nat)
      requires Valid() && PriceTime.Admissible(View(), CancelOrder(client, orderId))
      modifies this, book, book.priceIndex, book.levels, book.pool
      ensures Valid() && book.pool <= old(book.pool) && book.levels <= old(book.levels)
      ensures var s := PriceTime.Withdraw(old(View()), Owner(client, orderId));
        && View() == s.book
        && responses == old(responses) + s.responses && updates == old(updates) + s.updates
    {
      hide LevelBook.Book.Valid, LevelBook.Book.Named, LevelBook.Book.View, LevelBook.Exact;
      var k := Owner(client, orderId);
      FoundByOwner(k);
      var isCancelable := client < MAX_CLIENTS;
      if isCancelable {
        isCancelable := k in book.index;
      }
      if !isCancelable {
        responses := responses + [PriceTime.Rejection(ticker, k)];
      } else {
        var o := book.index[k];
        book.ViewAt(o);
        assert PriceTime.OwnedBy(book.View(), k, o.id);
        responses := responses + [Response(Cancelled, client, ticker, orderId, o.id, Some(o.side), o.price, QUANTITY_INVALID, o.quantity)];
        updates := updates + [Update.Cancel(ticker, o.id, o.side, o.price, 0, o.priority)];
        Drop(o);
      }
    }

    /** processClientRequest; `ok` is false when a memory pool runs out. */
    method Process(r: Request) returns (ok: bool)
      requires Valid() && PriceTime.Admissible(View(), r)
      modifies this, book, book.priceIndex, book.levels, book.pool
      ensures ok ==> Valid() && fresh(book.pool - old(book.pool)) && fresh(book.levels - old(book.levels))
      ensures PriceTime.Owned(old(View()).orders)
      ensures var s := PriceTime.Process(old(View()), r);
        && (ok <==> Roomy(s.book.orders))
        && (ok ==> View() == s.book
                   && responses == old(responses) + s.responses && updates == old(updates) + s.updates)
    {
      hide Valid, View, LevelBook.Book.View, PriceTime.Submit, PriceTime.Withdraw, PriceTime.Admissible, Roomy;
      ViewOwned();
      OwnedView();
      match r {
        case NewOrder(client, orderId, side, price, quantity) =>
          ok := Add(client, orderId, side, price, quantity);
        case CancelOrder(client, orderId) =>
          Cancel(client, orderId);
          ValidIsRoomy();
          ok := true;
      }
    }

    lemma ValidIsRoomy()
      requires Valid()
      ensures Roomy(book.View()) && Roomy(View().orders)
    {
      book.CountsInView();
    }

    lemma OwnedView()
      requires book.Named()
      ensures View().orders == book.View()
    {
    }

    /** Over every run of requests, the pointer book does what the reference book does: the same
        resting orders, the same responses and the same updates, in the same order. It stops short exactly
        if some request leaves more orders or price levels than the memory pools hold. */
    method ProcessAll(rs: seq<Request>) returns (ok: bool)
      requires Valid() && ExchangeRuns.AdmissibleRun(View(), rs)
      modifies this, book, book.priceIndex, book.levels, book.pool
      ensures ok <==> ExchangeRuns.RoomyRun(old(View()), rs)
      ensures ok ==> Valid()
      ensures var s := ExchangeRuns.Run(old(View()), rs);
        ok ==> View() == s.book
               && responses == old(responses) + s.responses && updates == old(updates) + s.updates
    {
      hide Valid, View, LevelBook.Book.View, PriceTime.Process, PriceTime.Admissible, PriceTime.Owned, Roomy;
      hide ExchangeRuns.Run, ExchangeRuns.AdmissibleRun, ExchangeRuns.RoomyRun, ExchangeRuns.Follows;
      ghost var whole := ExchangeRuns.Run(View(), rs);
      ghost var roomy := ExchangeRuns.RoomyRun(View(), rs);
      ghost var done := PriceTime.Step(View(), [], []);
      ExchangeRuns.FollowsNothing(whole, View());
      assert rs[0..] == rs;
      for n := 0 to |rs|
        invariant Valid() && ExchangeRuns.AdmissibleRun(View(), rs[n..])
        invariant roomy <==> ExchangeRuns.RoomyRun(View(), rs[n..])
        invariant fresh(book.pool - old(book.pool)) && fresh(book.levels - old(book.levels))
        invariant ExchangeRuns.Follows(whole, done, ExchangeRuns.Run(View(), rs[n..]))
        invariant responses == old(responses) + done.responses && updates == old(updates) + done.updates
      {
        assert rs[n..][0] == rs[n] && rs[n..][1..] == rs[n + 1..];
        ExchangeRuns.FollowsStep(whole, done, View(), rs[n..]);
        ghost var s := PriceTime.Process(View(), rs[n]);
        ok := Process(rs[n]);
        if !ok {
          return;
        }
        done := PriceTime.Step(s.book, done.responses + s.responses, done.updates + s.updates);
      }
      assert rs[|rs|..] == [];
      ExchangeRuns.FollowsAll(whole, done, View());
      ok := true;
    }
  }
}

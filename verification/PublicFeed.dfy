/**
 The public updates of the exchange replay its book, and what that makes of whole runs.
 */
module PublicFeed {
  import opened Domain
  import opened Messages
  import opened PriceTime
  import opened BookLaws

  /** The book as the public may see it: market ids instead of owners. */
  function Publish(o: Orders): Orders {
    map id | id in o :: o[id].(owner := Public(id))
  }

  lemma PublishIsRoomy(o: Orders)
    requires Roomy(o)
    ensures Roomy(Publish(o))
  {
    RoomyShrinks(o, Publish(o));
  }

  lemma ReplaysOne(o: Orders, u: Update)
    requires Legal(o, u)
    ensures Replays(o, [u], Apply(o, u))
  {
    assert [u][1..] == [];
  }

  lemma FillReplays(o: Orders, t: Taker, id: nat, leaves: nat)
    requires Owned(o) && t.owner.Owner? && id in o && o[id].quantity > 0
    ensures var f := Fill(o, t, id, leaves); Replays(Publish(o), f.updates, Publish(f.orders))
  {
    var f := Fill(o, t, id, leaves);
    ReplaysOne(Publish(o), f.updates[0]);
    assert Apply(Publish(o), f.updates[0]) == Publish(f.orders);
  }

  lemma {:induction false} MatchReplays(o: Orders, t: Taker, leaves: nat)
    requires Owned(o) && t.owner.Owner? && forall id :: id in o ==> o[id].quantity > 0
    ensures var m := Match(o, t, leaves); Replays(Publish(o), m.updates, Publish(m.orders))
    decreases |o|, leaves
  {
    var best := Best(o, Opposite(t.side));
    if leaves > 0 && best.Some? && Crosses(t, o[best.value].price) {
      hide Publish, Replays;
      var f := Fill(o, t, best.value, leaves);
      FillReplays(o, t, best.value, leaves);
      MatchReplays(f.orders, t, f.leaves);
      var m := Match(f.orders, t, f.leaves);
      ReplaysConcat(Publish(o), f.updates, Publish(f.orders), m.updates, Publish(m.orders));
    }
  }

  lemma RestReplays(b: Book, t: Taker, r: Resting)
    requires WellFormed(b) && b.nextId == t.id && r.quantity > 0 && Roomy(b.orders[t.id := r])
    requires t.side == r.side && t.price == r.price
    requires forall id :: id in b.orders && b.orders[id].side == Opposite(t.side) ==> !Crosses(t, b.orders[id].price)
    requires forall id :: id in b.orders && PriceToIndex(b.orders[id].price) == PriceToIndex(t.price) ==> b.orders[id].price == t.price
    ensures var u := Add(b.ticker, t.id, r.side, r.price, r.quantity, r.priority);
      Replays(Publish(b.orders), [u], Publish(b.orders[t.id := r]))
  {
    hide Roomy, Prices, Uncrossed, PrioritiesAscend, SlotsApart, UniqueOwners;
    PublishIsRoomy(b.orders[t.id := r]);
    var u := Add(b.ticker, t.id, r.side, r.price, r.quantity, r.priority);
    var o := Publish(b.orders);
    forall k | k in o && PriceToIndex(o[k].price) == PriceToIndex(t.price)
      ensures o[k].price == t.price && o[k].side == t.side && k < t.id
    {
      assert !Crosses(t, t.price) ==> false;
    }
    assert Apply(o, u) == Publish(b.orders[t.id := r]);
    ReplaysOne(o, u);
  }

  lemma SubmitReplays(b: Book, owner: Owner, side: Side, price: int, quantity: nat)
    requires WellFormed(b) && owner.Owner? && Admissible(b, NewOrder(owner.client, owner.orderId, side, price, quantity))
    requires Roomy(Submit(b, owner, side, price, quantity).book.orders)
    ensures var s := Submit(b, owner, side, price, quantity);
      Replays(Publish(b.orders), s.updates, Publish(s.book.orders))
  {
    hide Publish, Replays, Match, NextPriority, Uncrossed, PrioritiesAscend, SlotsApart, UniqueOwners;
    var t := Taker(b.ticker, owner, b.nextId, side, price);
    var m := Match(b.orders, t, quantity);
    MatchReplays(b.orders, t, quantity);
    MatchShrinks(b.orders, t, quantity);
    if m.leaves > 0 {
      MatchIsComplete(b.orders, t, quantity);
      ShrunkStaysWellFormed(b, m.orders, side);
      var r := Resting(owner, side, price, m.leaves, NextPriority(m.orders, side, price));
      RestReplays(b.(orders := m.orders), t, r);
      ReplaysConcat(Publish(b.orders), m.updates, Publish(m.orders),
        [Add(b.ticker, t.id, side, price, m.leaves, r.priority)], Publish(m.orders[t.id := r]));
    }
  }

  lemma WithdrawReplays(b: Book, owner: Owner)
    requires owner.Owner?
    ensures var s := Withdraw(b, owner); Replays(Publish(b.orders), s.updates, Publish(s.book.orders))
  {
    var s := Withdraw(b, owner);
    if s.updates != [] {
      ReplaysOne(Publish(b.orders), s.updates[0]);
      assert Apply(Publish(b.orders), s.updates[0]) == Publish(s.book.orders);
    }
  }

  /** Applying the updates of a request, in order, takes the public book to the public book after
      the request; every single step is one a receiver can apply. */
  lemma ProcessReplays(b: Book, r: Request)
    requires WellFormed(b) && Admissible(b, r) && Roomy(Process(b, r).book.orders)
    ensures var s := Process(b, r); Replays(Publish(b.orders), s.updates, Publish(s.book.orders))
  {
    hide Publish, Replays, Submit, Withdraw, Uncrossed, PrioritiesAscend, SlotsApart, UniqueOwners;
    match r
    case NewOrder(client, orderId, side, price, quantity) =>
      SubmitReplays(b, Owner(client, orderId), side, price, quantity);
    case CancelOrder(client, orderId) =>
      WithdrawReplays(b, Owner(client, orderId));
  }
}

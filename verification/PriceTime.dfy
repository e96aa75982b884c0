/**
 The reference book: a bag of resting orders with price-time priority stated outright. Nothing here
 is sorted, linked or indexed; the best order is the one no other order is ahead of.
 */
module PriceTime {
  import opened Domain
  import opened Messages

  datatype Book = Book(ticker: nat, orders: Orders, nextId: nat)

  /** The order being added: who sent it and the market id it was given. */
  datatype Taker = Taker(ticker: nat, owner: Owner, id: nat, side: Side, price: int)

  datatype Outcome = Outcome(orders: Orders, leaves: nat, responses: seq<Response>, updates: seq<Update>)

  datatype Step = Step(book: Book, responses: seq<Response>, updates: seq<Update>)

  /** Price first, then time; market ids are handed out in order of arrival. */
  predicate Ahead(a: Resting, i: nat, b: Resting, j: nat) {
    Better(a.side, a.price, b.price) || (a.price == b.price && i < j)
  }

  predicate IsBest(orders: Orders, s: Side, id: nat) {
    && id in orders && orders[id].side == s
    && forall k :: k in orders && orders[k].side == s && k != id ==> Ahead(orders[id], id, orders[k], k)
  }

  ghost function Best(orders: Orders, s: Side): Option<nat> {
    if exists id :: IsBest(orders, s, id) then
      var id :| IsBest(orders, s, id); Some(id)
    else None
  }

  /** The order that arrived last among those at one price of one side. */
  predicate IsLast(orders: Orders, s: Side, price: int, id: nat) {
    && id in orders && orders[id].side == s && orders[id].price == price
    && forall k :: k in orders && orders[k].side == s && orders[k].price == price ==> k <= id
  }

  ghost function NextPriority(orders: Orders, s: Side, price: int): nat {
    if exists id :: IsLast(orders, s, price, id) then
      var id :| IsLast(orders, s, price, id); orders[id].priority + 1
    else 1
  }

  /** A taker at its price accepts a resting order at `price`. */
  predicate Crosses(t: Taker, price: int) {
    !Better(Opposite(t.side), t.price, price)
  }

  /** No order on the other side is at a price the taker accepts. */
  predicate Exhausted(orders: Orders, t: Taker) {
    forall id :: id in orders && orders[id].side == Opposite(t.side) ==> !Crosses(t, orders[id].price)
  }

  function Min(a: nat, b: nat): nat {
    if a < b then a else b
  }

  /** One trade of taker `t` with the resting order `id`, at the resting order's price. */
  function Fill(orders: Orders, t: Taker, id: nat, leaves: nat): Outcome
    requires id in orders && t.owner.Owner? && orders[id].owner.Owner?
  {
    var o := orders[id];
    var q := Min(o.quantity, leaves);
    var mine := Response(Filled, t.owner.client, t.ticker, t.owner.orderId, t.id, Some(t.side), o.price, q, leaves - q);
    var theirs := Response(Filled, o.owner.client, t.ticker, o.owner.orderId, id, Some(o.side), o.price, q, o.quantity - q);
    if q == o.quantity then
      Outcome(orders - {id}, leaves - q, [mine, theirs],
              [Cancel(t.ticker, id, o.side, o.price, o.quantity, PRIORITY_INVALID)])
    else
      Outcome(orders[id := o.(quantity := o.quantity - q)], leaves - q, [mine, theirs],
              [Modify(t.ticker, id, o.side, o.price, o.quantity - q, o.priority)])
  }

  predicate Owned(orders: Orders) {
    forall id :: id in orders ==> orders[id].owner.Owner?
  }

  /** Trades with the best opposite order for as long as there is one at an acceptable price. */
  ghost function Match(orders: Orders, t: Taker, leaves: nat): (r: Outcome)
    requires Owned(orders) && t.owner.Owner?
    ensures Owned(r.orders)
    decreases |orders|, leaves
  {
    var best := Best(orders, Opposite(t.side));
    if leaves == 0 || best.None? || !Crosses(t, orders[best.value].price) then
      Outcome(orders, leaves, [], [])
    else
      var f := Fill(orders, t, best.value, leaves);
      var r := Match(f.orders, t, f.leaves);
      Outcome(r.orders, r.leaves, f.responses + r.responses, f.updates + r.updates)
  }

  ghost function Submit(b: Book, owner: Owner, side: Side, price: int, quantity: nat): Step
    requires Owned(b.orders) && owner.Owner?
  {
    var t := Taker(b.ticker, owner, b.nextId, side, price);
    var accepted := Response(Accepted, b.ticker, owner.client, owner.orderId, t.id, Some(side), price, 0, quantity);
    var m := Match(b.orders, t, quantity);
    if m.leaves == 0 then
      Step(Book(b.ticker, m.orders, b.nextId + 1), [accepted] + m.responses, m.updates)
    else
      var priority := NextPriority(m.orders, side, price);
      Step(Book(b.ticker, m.orders[t.id := Resting(owner, side, price, m.leaves, priority)], b.nextId + 1),
           [accepted] + m.responses,
           m.updates + [Add(b.ticker, t.id, side, price, m.leaves, priority)])
  }

  predicate OwnedBy(orders: Orders, owner: Owner, id: nat) {
    id in orders && orders[id].owner == owner
  }

  ghost function Withdraw(b: Book, owner: Owner): Step
    requires owner.Owner?
  {
    if exists id :: OwnedBy(b.orders, owner, id) then
      var id :| OwnedBy(b.orders, owner, id);
      var o := b.orders[id];
      Step(b.(orders := b.orders - {id}),
           [Response(Cancelled, owner.client, b.ticker, owner.orderId, id, Some(o.side), o.price, QUANTITY_INVALID, o.quantity)],
           [Cancel(b.ticker, id, o.side, o.price, 0, o.priority)])
    else
      Step(b, [Rejection(b.ticker, owner)], [])
  }

  function Rejection(ticker: nat, owner: Owner): Response
    requires owner.Owner?
  {
    Response(CancelRejected, owner.client, ticker, owner.orderId, ORDER_ID_INVALID, None,
             PRICE_INVALID, QUANTITY_INVALID, QUANTITY_INVALID)
  }

  /** What the book demands of a request: array indices in range, an order id that is not resting,
      and a price that shares its index slot with no other live price. */
  predicate Admissible(b: Book, r: Request) {
    match r
    case NewOrder(client, orderId, _, price, _) =>
      && client < MAX_CLIENTS && orderId < MAX_ORDER_IDS
      && forall id :: id in b.orders ==>
           && b.orders[id].owner != Owner(client, orderId)
           && (PriceToIndex(b.orders[id].price) == PriceToIndex(price) ==> b.orders[id].price == price)
    case CancelOrder(client, orderId) =>
      client < MAX_CLIENTS ==> orderId < MAX_ORDER_IDS
  }

  ghost function Process(b: Book, r: Request): Step
    requires Owned(b.orders)
  {
    match r
    case NewOrder(client, orderId, side, price, quantity) =>
      Submit(b, Owner(client, orderId), side, price, quantity)
    case CancelOrder(client, orderId) =>
      Withdraw(b, Owner(client, orderId))
  }

  lemma BestIs(orders: Orders, s: Side, id: nat)
    requires IsBest(orders, s, id)
    ensures Best(orders, s) == Some(id)
  {
  }

  lemma NextPriorityIs(orders: Orders, s: Side, price: int, id: nat)
    requires IsLast(orders, s, price, id)
    ensures NextPriority(orders, s, price) == orders[id].priority + 1
  {
  }

  /** Unrolls one trade of the matching. */
  lemma MatchTrades(orders: Orders, t: Taker, leaves: nat, id: nat)
    requires Owned(orders) && t.owner.Owner? && leaves > 0
    requires IsBest(orders, Opposite(t.side), id) && Crosses(t, orders[id].price)
    ensures Owned(Fill(orders, t, id, leaves).orders)
    ensures var f := Fill(orders, t, id, leaves);
      var r := Match(f.orders, t, f.leaves);
      Match(orders, t, leaves) == Outcome(r.orders, r.leaves, f.responses + r.responses, f.updates + r.updates)
  {
    BestIs(orders, Opposite(t.side), id);
  }

  /** Matching outcome `m` is what has been emitted so far, followed by outcome `r`. */
  ghost predicate Continues(m: Outcome, rs: seq<Response>, us: seq<Update>, r: Outcome) {
    && m.orders == r.orders && m.leaves == r.leaves
    && m.responses == rs + r.responses && m.updates == us + r.updates
  }

  lemma ContinuesFromStart(m: Outcome)
    ensures Continues(m, [], [], m)
  {
  }

  lemma ContinuesAfterTrade(
      m: Outcome, rs: seq<Response>, us: seq<Update>, orders: Orders, t: Taker, leaves: nat, id: nat)
    requires Owned(orders) && t.owner.Owner? && leaves > 0
    requires IsBest(orders, Opposite(t.side), id) && Crosses(t, orders[id].price)
    requires Continues(m, rs, us, Match(orders, t, leaves))
    ensures var f := Fill(orders, t, id, leaves);
      Owned(f.orders) && Continues(m, rs + f.responses, us + f.updates, Match(f.orders, t, f.leaves))
  {
    MatchTrades(orders, t, leaves, id);
  }

  lemma ContinuesToEnd(m: Outcome, rs: seq<Response>, us: seq<Update>, orders: Orders, t: Taker, leaves: nat)
    requires Owned(orders) && t.owner.Owner?
    requires Continues(m, rs, us, Match(orders, t, leaves))
    requires leaves == 0 || Best(orders, Opposite(t.side)).None?
          || exists id :: IsBest(orders, Opposite(t.side), id) && !Crosses(t, orders[id].price)
    ensures m == Outcome(orders, leaves, rs, us)
  {
    if id :| IsBest(orders, Opposite(t.side), id) {
      BestIs(orders, Opposite(t.side), id);
    }
  }

  /** A side with an order has a best order. */
  lemma {:induction false} BestExists(orders: Orders, s: Side, id: nat)
    requires id in orders && orders[id].side == s
    ensures exists b :: IsBest(orders, s, b)
    decreases |orders|
  {
    var rest := orders - {id};
    assert forall k :: k in orders && k != id ==> k in rest && rest[k] == orders[k];
    if k :| k in rest && rest[k].side == s {
      BestExists(rest, s, k);
      var b :| IsBest(rest, s, b);
      assert IsBest(orders, s, if Ahead(orders[id], id, orders[b], b) then id else b);
    } else {
      assert IsBest(orders, s, id);
    }
  }

  /** When quantity is left after matching, nothing acceptable is left to trade with. */
  lemma {:induction false} MatchIsComplete(orders: Orders, t: Taker, leaves: nat)
    requires Owned(orders) && t.owner.Owner?
    ensures var r := Match(orders, t, leaves);
      r.leaves > 0 ==> Exhausted(r.orders, t)
    decreases |orders|, leaves
  {
    var best := Best(orders, Opposite(t.side));
    if leaves > 0 && best.Some? && Crosses(t, orders[best.value].price) {
      var f := Fill(orders, t, best.value, leaves);
      MatchIsComplete(f.orders, t, f.leaves);
    } else {
      forall id | id in orders && orders[id].side == Opposite(t.side) ensures leaves > 0 ==> !Crosses(t, orders[id].price) {
        BestExists(orders, Opposite(t.side), id);
      }
    }
  }
}

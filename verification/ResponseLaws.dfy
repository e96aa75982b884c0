/**
 What the messages of the exchange say, as laws on the stream: which order each response is about and at
 what price, what the public is told of each order that goes, and who trades first.
 */
module ResponseLaws {
  import opened Domain
  import opened Messages
  import opened PriceTime
  import opened BookLaws
  import opened PublicFeed
  import opened ExchangeRuns

  // ----- Responses name the order they are about

  /** What identifies a live order: the market id it was acknowledged with, and its price. */
  datatype Card = Card(id: nat, price: int)

  type Cards = map<Owner, Card>

  /** An order that a response leaves without quantity is live no longer. */
  function Kept(c: Cards, r: Response): Cards {
    if r.leaves == 0 then c - {About(r)} else c
  }

  /** The two fills of one trade, the taker's first: each names its own order's market id; both carry the
      maker's price, which is within the taker's limit, and the same quantity; one of the orders is done; the
      maker is the older one. */
  predicate TradeBetween(t: nat, c: Cards, mine: Response, theirs: Response) {
    && mine.kind == theirs.kind == Filled && mine.ticker == theirs.ticker == t
    && About(mine) != About(theirs) && About(mine) in c && About(theirs) in c
    && mine.marketOrderId == c[About(mine)].id && theirs.marketOrderId == c[About(theirs)].id
    && theirs.marketOrderId < mine.marketOrderId
    && mine.price == theirs.price == c[About(theirs)].price
    && mine.executed == theirs.executed > 0 && (mine.leaves == 0 || theirs.leaves == 0)
    && (mine.side == Some(Buy) ==> theirs.side == Some(Sell) && mine.price <= c[About(mine)].price)
    && (mine.side == Some(Sell) ==> theirs.side == Some(Buy) && mine.price >= c[About(mine)].price)
  }

  /** Responses `rs` of ticker t's book are truthful: starting from the live orders `c` and the next market id
      `n`, an acknowledgement gives out the next id; fills come in trades; a cancellation names the market id
      and the price of the order it takes away; a rejection names no order, and there is none. They end with the
      live orders `c'` and the next id `n'`. */
  predicate Reports(t: nat, n: nat, c: Cards, rs: seq<Response>, n': nat, c': Cards)
    decreases |rs|
  {
    if rs == [] then n == n' && c == c'
    else
      var r := rs[0];
      match r.kind
      case Accepted =>
        && r.client == t && r.marketOrderId == n && About(r) !in c && r.executed == 0
        && Reports(t, n + 1, if r.leaves == 0 then c else c[About(r) := Card(n, r.price)], rs[1..], n', c')
      case Filled =>
        |rs| >= 2 && TradeBetween(t, c, r, rs[1]) && Reports(t, n, Kept(Kept(c, r), rs[1]), rs[2..], n', c')
      case Cancelled =>
        && r.ticker == t && About(r) in c && r.marketOrderId == c[About(r)].id && r.price == c[About(r)].price
        && r.executed == QUANTITY_INVALID && Reports(t, n, c - {About(r)}, rs[1..], n', c')
      case CancelRejected =>
        && r.ticker == t && About(r) !in c && r.marketOrderId == ORDER_ID_INVALID && r.price == PRICE_INVALID
        && r.executed == r.leaves == QUANTITY_INVALID && Reports(t, n, c, rs[1..], n', c')
  }

  lemma {:induction false} ReportsConcat(
      t: nat, n: nat, c: Cards, rs: seq<Response>, n1: nat, c1: Cards, ss: seq<Response>, n2: nat, c2: Cards)
    requires Reports(t, n, c, rs, n1, c1) && Reports(t, n1, c1, ss, n2, c2)
    ensures Reports(t, n, c, rs + ss, n2, c2)
    decreases |rs|
  {
    hide Kept, TradeBetween;
    if rs == [] {
      assert rs + ss == ss;
    } else {
      var r := rs[0];
      assert (rs + ss)[1..] == rs[1..] + ss;
      match r.kind
      case Accepted =>
        ReportsConcat(t, n + 1, if r.leaves == 0 then c else c[About(r) := Card(n, r.price)], rs[1..], n1, c1, ss, n2, c2);
      case Filled =>
        assert (rs + ss)[2..] == rs[2..] + ss;
        ReportsConcat(t, n, Kept(Kept(c, r), rs[1]), rs[2..], n1, c1, ss, n2, c2);
      case Cancelled =>
        ReportsConcat(t, n, c - {About(r)}, rs[1..], n1, c1, ss, n2, c2);
      case CancelRejected =>
        ReportsConcat(t, n, c, rs[1..], n1, c1, ss, n2, c2);
    }
  }

  /** `c` holds the market id and price of every resting order, and nothing else. */
  ghost predicate IsCards(o: Orders, c: Cards) {
    && (forall id :: id in o ==> o[id].owner in c && c[o[id].owner] == Card(id, o[id].price))
    && (forall k :: k in c ==> exists id :: OwnedBy(o, k, id))
  }

  ghost function CardsOf(o: Orders): (c: Cards)
    requires UniqueOwners(o)
    ensures IsCards(o, c)
  {
    var owners := set id | id in o :: o[id].owner;
    assert forall id :: id in o ==> OwnedBy(o, o[id].owner, id);
    map k | k in owners :: var id :| OwnedBy(o, k, id); Card(id, o[id].price)
  }

  lemma CardsAre(o: Orders, c: Cards)
    requires UniqueOwners(o) && IsCards(o, c)
    ensures c == CardsOf(o)
  {
    hide CardsOf;
  }

  lemma CardsWithout(o: Orders, id: nat)
    requires UniqueOwners(o) && id in o
    ensures UniqueOwners(o - {id}) && CardsOf(o - {id}) == CardsOf(o) - {o[id].owner}
  {
    hide CardsOf;
    var c, n := CardsOf(o) - {o[id].owner}, o - {id};
    forall k | k in c ensures exists j :: OwnedBy(n, k, j) {
      var j :| OwnedBy(o, k, j);
      assert OwnedBy(n, k, j);
    }
    CardsAre(n, c);
  }

  lemma CardsRequantified(o: Orders, id: nat, q: nat)
    requires UniqueOwners(o) && id in o
    ensures var n := o[id := o[id].(quantity := q)]; UniqueOwners(n) && CardsOf(n) == CardsOf(o)
  {
    hide CardsOf;
    var n, c := o[id := o[id].(quantity := q)], CardsOf(o);
    forall k | k in c ensures exists j :: OwnedBy(n, k, j) {
      var j :| OwnedBy(o, k, j);
      assert OwnedBy(n, k, j);
    }
    CardsAre(n, c);
  }

  lemma CardsWith(o: Orders, id: nat, r: Resting)
    requires UniqueOwners(o) && id !in o && forall k :: k in o ==> o[k].owner != r.owner
    ensures UniqueOwners(o[id := r]) && CardsOf(o[id := r]) == CardsOf(o)[r.owner := Card(id, r.price)]
  {
    hide CardsOf;
    var n, c := o[id := r], CardsOf(o)[r.owner := Card(id, r.price)];
    forall k | k in c ensures exists j :: OwnedBy(n, k, j) {
      if k == r.owner {
        assert OwnedBy(n, k, id);
      } else {
        var j :| OwnedBy(o, k, j);
        assert OwnedBy(n, k, j);
      }
    }
    CardsAre(n, c);
  }

  lemma StrangerHasNoCard(o: Orders, k: Owner)
    requires UniqueOwners(o) && forall id :: id in o ==> o[id].owner != k
    ensures k !in CardsOf(o)
  {
    hide CardsOf;
    assert forall id :: !OwnedBy(o, k, id);
  }

  /** The live orders while taker `t` has `leaves` left. */
  ghost function WithTaker(o: Orders, t: Taker, leaves: nat): Cards
    requires UniqueOwners(o)
  {
    if leaves == 0 then CardsOf(o) else CardsOf(o)[t.owner := Card(t.id, t.price)]
  }

  /** A book that taker `t` may trade with. */
  ghost predicate Tradable(o: Orders, t: Taker) {
    && Owned(o) && UniqueOwners(o) && t.owner.Owner?
    && forall k :: k in o ==> o[k].owner != t.owner && o[k].quantity > 0 && k < t.id
  }

  lemma FillReports(o: Orders, t: Taker, id: nat, leaves: nat)
    requires Tradable(o, t) && id in o && leaves > 0 && o[id].side == Opposite(t.side) && Crosses(t, o[id].price)
    ensures var f := Fill(o, t, id, leaves);
      && Tradable(f.orders, t) && |f.responses| == 2
      && TradeBetween(t.ticker, WithTaker(o, t, leaves), f.responses[0], f.responses[1])
      && Kept(Kept(WithTaker(o, t, leaves), f.responses[0]), f.responses[1]) == WithTaker(f.orders, t, f.leaves)
  {
    hide CardsOf, IsCards, UniqueOwners;
    var f := Fill(o, t, id, leaves);
    FillCards(o, t, id, leaves);
    StrangerHasNoCard(o, t.owner);
    CardAt(o, id);
    KeptTwice(CardsOf(o), t.owner, Card(t.id, t.price), o[id].owner, f.responses[0], f.responses[1]);
  }

  lemma CardAt(o: Orders, id: nat)
    requires UniqueOwners(o) && id in o
    ensures o[id].owner in CardsOf(o) && CardsOf(o)[o[id].owner] == Card(id, o[id].price)
  {
    hide CardsOf;
  }

  lemma KeptTwice(c: Cards, k: Owner, card: Card, theirs: Owner, a: Response, b: Response)
    requires k !in c && theirs in c && About(a) == k && About(b) == theirs
    ensures Kept(Kept(c[k := card], a), b) ==
      var rest := if b.leaves == 0 then c - {theirs} else c;
      if a.leaves == 0 then rest else rest[k := card]
  {
    assert c[k := card] - {k} == c;
    assert c[k := card] - {theirs} == (c - {theirs})[k := card];
  }

  lemma FillCards(o: Orders, t: Taker, id: nat, leaves: nat)
    requires Tradable(o, t) && id in o && leaves > 0
    ensures var f := Fill(o, t, id, leaves);
      && Tradable(f.orders, t)
      && CardsOf(f.orders) == if o[id].quantity <= leaves then CardsOf(o) - {o[id].owner} else CardsOf(o)
  {
    hide CardsOf, IsCards;
    if o[id].quantity <= leaves {
      CardsWithout(o, id);
    } else {
      CardsRequantified(o, id, o[id].quantity - leaves);
    }
  }

  lemma TradeThen(t: nat, n: nat, c: Cards, fs: seq<Response>, c1: Cards, rs: seq<Response>, n': nat, c': Cards)
    requires |fs| == 2 && TradeBetween(t, c, fs[0], fs[1]) && Kept(Kept(c, fs[0]), fs[1]) == c1
    requires Reports(t, n, c1, rs, n', c')
    ensures Reports(t, n, c, fs + rs, n', c')
  {
    hide Kept;
    assert (fs + rs)[2..] == rs && (fs + rs)[0] == fs[0] && (fs + rs)[1] == fs[1];
  }

  lemma {:induction false} MatchReports(o: Orders, t: Taker, leaves: nat, n: nat)
    requires Tradable(o, t)
    ensures var m := Match(o, t, leaves);
      && Tradable(m.orders, t)
      && Reports(t.ticker, n, WithTaker(o, t, leaves), m.responses, n, WithTaker(m.orders, t, m.leaves))
    decreases |o|, leaves
  {
    hide WithTaker, Reports, TradeBetween, Kept, UniqueOwners;
    var best := Best(o, Opposite(t.side));
    if leaves > 0 && best.Some? && Crosses(t, o[best.value].price) {
      var f := Fill(o, t, best.value, leaves);
      FillReports(o, t, best.value, leaves);
      MatchReports(f.orders, t, f.leaves, n);
      var m := Match(f.orders, t, f.leaves);
      TradeThen(t.ticker, n, WithTaker(o, t, leaves), f.responses, WithTaker(f.orders, t, f.leaves),
                m.responses, n, WithTaker(m.orders, t, m.leaves));
    } else {
      NothingReports(t.ticker, n, WithTaker(o, t, leaves));
    }
  }

  lemma NothingReports(t: nat, n: nat, c: Cards)
    ensures Reports(t, n, c, [], n, c)
  {
  }

  lemma AcceptedThen(t: nat, n: nat, c: Cards, r: Response, rs: seq<Response>, n': nat, c': Cards)
    requires r.kind == Accepted && r.client == t && r.marketOrderId == n && About(r) !in c && r.executed == 0
    requires Reports(t, n + 1, if r.leaves == 0 then c else c[About(r) := Card(n, r.price)], rs, n', c')
    ensures Reports(t, n, c, [r] + rs, n', c')
  {
    assert ([r] + rs)[1..] == rs;
  }

  lemma SubmitReports(b: Book, owner: Owner, side: Side, price: int, quantity: nat)
    requires WellFormed(b) && owner.Owner? && Admissible(b, NewOrder(owner.client, owner.orderId, side, price, quantity))
    ensures var s := Submit(b, owner, side, price, quantity);
      && UniqueOwners(s.book.orders)
      && Reports(b.ticker, b.nextId, CardsOf(b.orders), s.responses, s.book.nextId, CardsOf(s.book.orders))
  {
    hide CardsOf, IsCards, Reports, UniqueOwners, Match, NextPriority, Uncrossed, PrioritiesAscend, SlotsApart;
    var t := Taker(b.ticker, owner, b.nextId, side, price);
    var s := Submit(b, owner, side, price, quantity);
    var m := Match(b.orders, t, quantity);
    WellFormedIsUnique(b);
    assert Tradable(b.orders, t);
    MatchReports(b.orders, t, quantity, b.nextId + 1);
    StrangerHasNoCard(b.orders, owner);
    if m.leaves > 0 {
      CardsWith(m.orders, t.id, Resting(owner, side, price, m.leaves, NextPriority(m.orders, side, price)));
    }
    AcceptedThen(b.ticker, b.nextId, CardsOf(b.orders), s.responses[0], m.responses, b.nextId + 1, CardsOf(s.book.orders));
  }

  lemma WithdrawReports(b: Book, owner: Owner)
    requires WellFormed(b) && owner.Owner?
    ensures var s := Withdraw(b, owner);
      && UniqueOwners(s.book.orders)
      && Reports(b.ticker, b.nextId, CardsOf(b.orders), s.responses, s.book.nextId, CardsOf(s.book.orders))
  {
    hide CardsOf, Uncrossed, PrioritiesAscend, SlotsApart;
    var s := Withdraw(b, owner);
    assert s.responses[1..] == [];
    if id :| OwnedBy(b.orders, owner, id) {
      CardsWithout(b.orders, id);
    } else {
      forall id | id in b.orders ensures b.orders[id].owner != owner {
        assert !OwnedBy(b.orders, owner, id);
      }
      StrangerHasNoCard(b.orders, owner);
    }
  }

  /** The responses to every request are truthful. */
  lemma ProcessReports(b: Book, r: Request)
    requires WellFormed(b) && Admissible(b, r)
    ensures var s := Process(b, r);
      && UniqueOwners(s.book.orders)
      && Reports(b.ticker, b.nextId, CardsOf(b.orders), s.responses, s.book.nextId, CardsOf(s.book.orders))
  {
    hide CardsOf, IsCards, Reports, Submit, Withdraw, UniqueOwners, Uncrossed, PrioritiesAscend, SlotsApart;
    match r
    case NewOrder(client, orderId, side, price, quantity) =>
      SubmitReports(b, Owner(client, orderId), side, price, quantity);
    case CancelOrder(client, orderId) =>
      WithdrawReports(b, Owner(client, orderId));
  }

  /** The responses of every run are truthful: whatever a response is about, it names the market id of that
      order's acknowledgement; a maker's fill and a cancellation carry the price the order rests at, and a
      taker's fill the price of the order it met. */
  lemma {:induction false} RunReports(b: Book, rs: seq<Request>)
    requires WellFormed(b) && AdmissibleRun(b, rs)
    ensures var s := Run(b, rs);
      && UniqueOwners(s.book.orders) && s.book.ticker == b.ticker
      && Reports(b.ticker, b.nextId, CardsOf(b.orders), s.responses, s.book.nextId, CardsOf(s.book.orders))
    decreases rs
  {
    hide Process, CardsOf, IsCards, Reports, UniqueOwners;
    if rs == [] {
      WellFormedIsUnique(b);
      NothingReports(b.ticker, b.nextId, CardsOf(b.orders));
    } else {
      var s := Process(b, rs[0]);
      ProcessKeepsWellFormed(b, rs[0]);
      ProcessReports(b, rs[0]);
      ProcessLabels(b, rs[0]);
      WellFormedIsUnique(b);
      RunReports(s.book, rs[1..]);
      var t := Run(s.book, rs[1..]);
      ReportsConcat(b.ticker, b.nextId, CardsOf(b.orders), s.responses, s.book.nextId, CardsOf(s.book.orders),
                    t.responses, t.book.nextId, CardsOf(t.book.orders));
    }
  }

  lemma WellFormedIsUnique(b: Book)
    requires WellFormed(b)
    ensures UniqueOwners(b.orders)
  {
  }

  /** The acknowledgement of a new order repeats the request and gives it the book's next market id. */
  lemma AcknowledgementEchoes(b: Book, r: Request)
    requires Owned(b.orders) && r.NewOrder?
    ensures var rs := Process(b, r).responses;
      && rs != [] && rs[0].kind == Accepted && About(rs[0]) == Owner(r.client, r.orderId)
      && rs[0].side == Some(r.side) && rs[0].price == r.price && rs[0].executed == 0 && rs[0].leaves == r.quantity
      && rs[0].marketOrderId == b.nextId
  {
    hide Match, NextPriority;
  }

  /** The cancellation of a resting order names everything the book held of it, and the public is told that it
      is gone, with a quantity of zero; the cancel of an unknown order is rejected, and the public told nothing. */
  lemma CancelNamesOrder(b: Book, client: nat, orderId: nat)
    requires WellFormed(b)
    ensures var k := Owner(client, orderId);
      var s := Process(b, CancelOrder(client, orderId));
      && (forall id :: OwnedBy(b.orders, k, id) ==>
            var o := b.orders[id];
            && s.responses == [Response(Cancelled, client, b.ticker, orderId, id, Some(o.side), o.price, QUANTITY_INVALID, o.quantity)]
            && s.updates == [Cancel(b.ticker, id, o.side, o.price, 0, o.priority)] && s.book.orders == b.orders - {id})
      && ((forall id :: !OwnedBy(b.orders, k, id)) ==>
            && s.responses == [Response(CancelRejected, client, b.ticker, orderId, ORDER_ID_INVALID, None,
                                        PRICE_INVALID, QUANTITY_INVALID, QUANTITY_INVALID)]
            && s.updates == [] && s.book == b)
  {
    hide Uncrossed, PrioritiesAscend, SlotsApart;
  }

  // ----- What the public is told of an order that goes

  /** Each CANCEL update carries what the order had: after a trade its last quantity and no priority, after a
      client's cancel a quantity of zero and its priority. */
  predicate Notices(o: Orders, us: seq<Update>, traded: bool)
    decreases us
  {
    us != [] ==>
      && (us[0].Cancel? ==>
            us[0].id in o &&
            if traded then us[0].quantity == o[us[0].id].quantity && us[0].priority == PRIORITY_INVALID
            else us[0].quantity == 0 && us[0].priority == o[us[0].id].priority)
      && Notices(Apply(o, us[0]), us[1..], traded)
  }

  lemma {:induction false} NoticesConcat(o: Orders, us: seq<Update>, m: Orders, vs: seq<Update>, traded: bool)
    requires Replays(o, us, m) && Notices(o, us, traded) && Notices(m, vs, traded)
    ensures Notices(o, us + vs, traded)
    decreases us
  {
    if us == [] {
      assert us + vs == vs;
    } else {
      hide Legal, Apply;
      NoticesConcat(Apply(o, us[0]), us[1..], m, vs, traded);
      assert (us + vs)[1..] == us[1..] + vs;
    }
  }

  lemma FillNotices(o: Orders, t: Taker, id: nat, leaves: nat)
    requires Owned(o) && t.owner.Owner? && id in o && o[id].quantity > 0
    ensures Notices(Publish(o), Fill(o, t, id, leaves).updates, true)
  {
    var us := Fill(o, t, id, leaves).updates;
    assert us[1..] == [];
  }

  lemma {:induction false} MatchNotices(o: Orders, t: Taker, leaves: nat)
    requires Owned(o) && t.owner.Owner? && forall id :: id in o ==> o[id].quantity > 0
    ensures Notices(Publish(o), Match(o, t, leaves).updates, true)
    decreases |o|, leaves
  {
    var best := Best(o, Opposite(t.side));
    if leaves > 0 && best.Some? && Crosses(t, o[best.value].price) {
      hide Publish, Replays, Notices;
      var f := Fill(o, t, best.value, leaves);
      FillReplays(o, t, best.value, leaves);
      FillNotices(o, t, best.value, leaves);
      MatchNotices(f.orders, t, f.leaves);
      NoticesConcat(Publish(o), f.updates, Publish(f.orders), Match(f.orders, t, f.leaves).updates, true);
    }
  }

  lemma AddIsNoNotice(o: Orders, u: Update, traded: bool)
    requires u.Add?
    ensures Notices(o, [u], traded)
  {
    assert [u][1..] == [];
  }

  lemma NoNotice(o: Orders, traded: bool)
    ensures Notices(o, [], traded)
  {
  }

  lemma ProcessNotices(b: Book, r: Request)
    requires WellFormed(b) && Admissible(b, r)
    ensures Notices(Publish(b.orders), Process(b, r).updates, r.NewOrder?)
  {
    match r
    case NewOrder(client, orderId, side, price, quantity) =>
      hide Publish, Replays, Notices, Match, NextPriority, Uncrossed, PrioritiesAscend, SlotsApart, UniqueOwners;
      var t := Taker(b.ticker, Owner(client, orderId), b.nextId, side, price);
      var m := Match(b.orders, t, quantity);
      MatchReplays(b.orders, t, quantity);
      MatchNotices(b.orders, t, quantity);
      if m.leaves > 0 {
        var u := Add(b.ticker, t.id, side, price, m.leaves, NextPriority(m.orders, side, price));
        AddIsNoNotice(Publish(m.orders), u, true);
        NoticesConcat(Publish(b.orders), m.updates, Publish(m.orders), [u], true);
      }
    case CancelOrder(client, orderId) =>
      CancelNamesOrder(b, client, orderId);
      var s := Process(b, r);
      if id :| OwnedBy(b.orders, Owner(client, orderId), id) {
        assert s.updates[1..] == [];
      } else {
        NoNotice(Publish(b.orders), false);
      }
  }

  // ----- Who trades first, and with what priority an order rests

  /** Order i has the better price, or the same price and the earlier arrival. */
  predicate Before(o: Orders, i: nat, j: nat)
    requires i in o && j in o
  {
    && o[i].side == o[j].side
    && (if o[i].price == o[j].price then i < j else if o[i].side == Buy then o[i].price > o[j].price else o[i].price < o[j].price)
  }

  lemma {:induction false} MatchIsFair(o: Orders, t: Taker, leaves: nat, i: nat, j: nat)
    requires Owned(o) && t.owner.Owner? && (forall id :: id in o ==> o[id].quantity > 0) && i in o && j in o && Before(o, i, j)
    ensures var m := Match(o, t, leaves);
      i in m.orders ==> j in m.orders && m.orders[j] == o[j]
    decreases |o|, leaves
  {
    var best := Best(o, Opposite(t.side));
    if leaves > 0 && best.Some? && Crosses(t, o[best.value].price) {
      var id := best.value;
      var f := Fill(o, t, id, leaves);
      MatchShrinks(f.orders, t, f.leaves);
      assert id != j;
      if i in f.orders {
        MatchIsFair(f.orders, t, f.leaves, i, j);
      }
    }
  }

  /** Price-time priority: as long as an order that comes first is still there after a new order has traded, an
      order that comes after it on the same side is untouched. */
  lemma ProcessIsFair(b: Book, r: Request, i: nat, j: nat)
    requires WellFormed(b) && Admissible(b, r) && r.NewOrder? && i in b.orders && j in b.orders && Before(b.orders, i, j)
    ensures var o := Process(b, r).book.orders;
      i in o ==> j in o && o[j] == b.orders[j]
  {
    hide Match, NextPriority, Uncrossed, PrioritiesAscend, SlotsApart, UniqueOwners, Before;
    MatchIsFair(b.orders, Taker(b.ticker, Owner(r.client, r.orderId), b.nextId, r.side, r.price), r.quantity, i, j);
  }

  /** A new order that rests has priority 1 at a price of its own, and one more than the order that arrived last
      at its price otherwise. */
  lemma RestingPriority(b: Book, r: Request)
    requires WellFormed(b) && r.NewOrder? && b.nextId in Process(b, r).book.orders
    ensures var o := Process(b, r).book.orders;
      var mine := o[b.nextId];
      && mine.side == r.side && mine.price == r.price && mine.owner == Owner(r.client, r.orderId)
      && ((forall id :: id in o && id != b.nextId ==> o[id].side != r.side || o[id].price != r.price) ==> mine.priority == 1)
      && (forall id :: IsLast(o - {b.nextId}, r.side, r.price, id) ==> mine.priority == o[id].priority + 1)
  {
    hide Match, NextPriority, Uncrossed, PrioritiesAscend, SlotsApart, UniqueOwners, IsLast;
    var t := Taker(b.ticker, Owner(r.client, r.orderId), b.nextId, r.side, r.price);
    MatchShrinks(b.orders, t, r.quantity);
    var m := Match(b.orders, t, r.quantity).orders;
    var o := Process(b, r).book.orders;
    assert b.nextId !in m;
    assert o - {b.nextId} == m;
    PriorityAlone(m, r.side, r.price);
    forall id | IsLast(m, r.side, r.price, id)
      ensures id in m && NextPriority(m, r.side, r.price) == m[id].priority + 1
    {
      NextPriorityIs(m, r.side, r.price, id);
      LastIsThere(m, r.side, r.price, id);
    }
    assert (forall id :: id in o && id != b.nextId ==> o[id].side != r.side || o[id].price != r.price) ==>
      forall id :: id in m ==> m[id].side != r.side || m[id].price != r.price;
  }

  lemma LastIsThere(o: Orders, s: Side, price: int, id: nat)
    requires IsLast(o, s, price, id)
    ensures id in o
  {
  }

  lemma PriorityAlone(o: Orders, s: Side, price: int)
    ensures (forall id :: id in o ==> o[id].side != s || o[id].price != price) ==> NextPriority(o, s, price) == 1
  {
  }
}

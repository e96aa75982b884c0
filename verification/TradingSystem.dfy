/**
 A trading client and the exchange together, for one client and one ticker: the order manager and the
 position on one side, the book on the other, and a first-in first-out channel each way. Other
 clients trade on the same book, and the strategy quotes whatever it likes.

 An ACCEPTED response is taken to reach the client it is about; `ResponsesAreAddressed` says when the
 exchange's field order makes that so.
 */
module TradingSystem {
  import opened Domain
  import opened Messages
  import opened PriceTime
  import opened BookLaws
  import opened ClientAccount
  import opened OrderManager

  datatype World = World(
    client: nat, manager: Manager, position: int, requests: seq<Request>, book: Book, responses: seq<Response>)

  datatype Event =
    | Quote(side: Side, price: int, quantity: nat, lossExceeded: bool)
    | Serve
    | Others(request: Request)
    | Hear
    | Skip

  /** What the book demands of a request besides that its order is not resting already. */
  predicate Fits(b: Book, r: Request) {
    match r
    case NewOrder(client, orderId, _, price, _) =>
      && client < MAX_CLIENTS && orderId < MAX_ORDER_IDS
      && forall id :: id in b.orders && PriceToIndex(b.orders[id].price) == PriceToIndex(price) ==> b.orders[id].price == price
    case CancelOrder(_, _) => Admissible(b, r)
  }

  ghost predicate Enabled(w: World, e: Event) {
    match e
    case Quote(_, _, _, _) => true
    case Serve => w.requests != [] && Fits(w.book, w.requests[0])
    case Others(r) => r.client != w.client && Admissible(w.book, r)
    case Hear => w.responses != []
    case Skip => true
  }

  /** The exchange processes `r`; the client's share of the responses goes to the client. */
  ghost function Served(w: World, r: Request): World
    requires Owned(w.book.orders)
  {
    var s := Process(w.book, r);
    w.(book := s.book, responses := w.responses + Mine(s.responses, w.client))
  }

  function Heard(w: World): World
    requires w.responses != []
  {
    var r := w.responses[0];
    w.(responses := w.responses[1..], manager := React(w.manager, r),
       position := if r.kind == Filled && r.side.Some? then w.position + SideValue(r.side.value) * r.executed else w.position)
  }

  function Quoted(cfg: RiskConfig, w: World, s: Side, price: int, quantity: nat, lossExceeded: bool): World {
    var allowed := CheckPreTradeRisk(cfg, w.position, lossExceeded, s, quantity) == Allowed;
    var (m, rs) := Move(w.manager, w.client, s, price, quantity, allowed);
    w.(manager := m, requests := w.requests + rs)
  }

  /** One step. `Skip` is an order id used up on another ticker. */
  ghost function Next(cfg: RiskConfig, w: World, e: Event): World
    requires Owned(w.book.orders) && Enabled(w, e)
  {
    match e
    case Quote(s, price, quantity, lossExceeded) => Quoted(cfg, w, s, price, quantity, lossExceeded)
    case Serve => Served(w.(requests := w.requests[1..]), w.requests[0])
    case Others(r) => Served(w, r)
    case Hear => Heard(w)
    case Skip => w.(manager := w.manager.(nextId := w.manager.nextId + 1))
  }

  function Start(client: nat, ticker: nat): World {
    World(client, Manager(UNUSED, UNUSED, 1), 0, [], Book(ticker, map[], 1), [])
  }

  ghost predicate Runs(cfg: RiskConfig, w: World, es: seq<Event>)
    decreases es
  {
    es != [] ==> Owned(w.book.orders) && Enabled(w, es[0]) && Runs(cfg, Next(cfg, w, es[0]), es[1..])
  }

  ghost function After(cfg: RiskConfig, w: World, es: seq<Event>): World
    requires Runs(cfg, w, es)
    decreases es
  {
    if es == [] then w else After(cfg, Next(cfg, w, es[0]), es[1..])
  }

  // ----- The invariant

  /** The client believes the order of this slot to be at work. */
  predicate Working(slot: Slot) {
    slot.state == Live || slot.state == PendingCancel
  }

  function Entry(l: Ledger, k: Owner, s: Side, slot: Slot): Ledger {
    if Working(slot) then Put(l, k, s, slot.quantity) else l
  }

  /** The client's own account of its open orders. */
  function Booked(m: Manager, c: nat): Ledger {
    Entry(Entry(map[], Owner(c, m.buy.orderId), Buy, m.buy), Owner(c, m.sell.orderId), Sell, m.sell)
  }

  /** Order ids are handed out in ascending order and never twice. */
  predicate IdsUnique(m: Manager) {
    && (m.buy.state != Invalid ==> m.buy.orderId < m.nextId)
    && (m.sell.state != Invalid ==> m.sell.orderId < m.nextId)
    && (m.buy.state != Invalid && m.sell.state != Invalid ==> m.buy.orderId != m.sell.orderId)
  }

  /** The new orders of side `s` among the requests. */
  function News(qs: seq<Request>, s: Side): seq<Request> {
    if qs == [] then []
    else if qs[0].NewOrder? && qs[0].side == s then [qs[0]] + News(qs[1..], s)
    else News(qs[1..], s)
  }

  /** A slot waits for an acknowledgement exactly if its order, and no other, is on the way there or
      the acknowledgement is on the way back. */
  ghost predicate Announced(w: World, s: Side) {
    var slot := SlotOf(w.manager, s);
    var news, acks := News(w.requests, s), Accepts(w.responses, s);
    if slot.state == PendingNew then
      || (acks == [] && news == [NewOrder(w.client, slot.orderId, s, slot.price, slot.quantity)])
      || (news == [] && |acks| == 1 && About(acks[0]) == Owner(w.client, slot.orderId) && acks[0].leaves == slot.quantity)
    else news == [] && acks == []
  }

  ghost predicate Rests(o: Orders, k: Owner) {
    exists id :: OwnedBy(o, k, id)
  }

  /** While an order that is being cancelled rests, the cancel request is on the way. */
  ghost predicate Withdrawing(w: World, s: Side) {
    var slot := SlotOf(w.manager, s);
    slot.state == PendingCancel && Rests(w.book.orders, Owner(w.client, slot.orderId)) ==>
      CancelOrder(w.client, slot.orderId) in w.requests
  }

  /** The responses under way are exactly the difference between the client's account of its open
      orders and the exchange's. */
  ghost predicate Reported(w: World) {
    && UniqueOwners(w.book.orders)
    && Accounts(Booked(w.manager, w.client), w.responses, Restrict(LedgerOf(w.book.orders), w.client))
  }

  ghost predicate Followed(w: World) {
    && IdsUnique(w.manager)
    && (forall r :: r in w.requests ==> r.client == w.client)
    && (forall s: Side :: Announced(w, s)) && (forall s: Side :: Withdrawing(w, s))
  }

  ghost predicate Consistent(w: World) {
    WellFormed(w.book) && Reported(w) && Followed(w)
  }

  // ----- News

  lemma NewsStep(q: Request, qs: seq<Request>, s: Side)
    ensures News([q] + qs, s) == if q.NewOrder? && q.side == s then [q] + News(qs, s) else News(qs, s)
  {
    assert ([q] + qs)[1..] == qs;
  }

  lemma {:induction false} NewsSnoc(qs: seq<Request>, q: Request, s: Side)
    ensures News(qs + [q], s) == if q.NewOrder? && q.side == s then News(qs, s) + [q] else News(qs, s)
    decreases qs
  {
    if qs == [] {
      assert qs + [q] == [q] + [];
      NewsStep(q, [], s);
    } else {
      var rest := qs[1..];
      NewsSnoc(rest, q, s);
      NewsStep(qs[0], rest, s);
      NewsStep(qs[0], rest + [q], s);
      assert qs == [qs[0]] + rest;
      assert qs + [q] == [qs[0]] + (rest + [q]);
    }
  }

  // ----- Quoting

  lemma QuoteAnnounces(w: World, s: Side, price: int, quantity: nat, allowed: bool, t: Side)
    requires Announced(w, t)
    ensures var (m, rs) := Move(w.manager, w.client, s, price, quantity, allowed);
      Announced(w.(manager := m, requests := w.requests + rs), t)
  {
    hide News, Accepts;
    var (m, rs) := Move(w.manager, w.client, s, price, quantity, allowed);
    if rs == [] {
      assert w.requests + rs == w.requests;
    } else {
      assert rs == [rs[0]];
      NewsSnoc(w.requests, rs[0], t);
    }
  }

  lemma QuoteWithdraws(w: World, s: Side, price: int, quantity: nat, allowed: bool, t: Side)
    requires Withdrawing(w, t)
    ensures var (m, rs) := Move(w.manager, w.client, s, price, quantity, allowed);
      Withdrawing(w.(manager := m, requests := w.requests + rs), t)
  {
    hide Rests;
  }

  lemma QuoteKeepsBooked(m: Manager, c: nat, s: Side, price: int, quantity: nat, allowed: bool)
    ensures Booked(Move(m, c, s, price, quantity, allowed).0, c) == Booked(m, c)
  {
    hide Put;
  }

  lemma QuoteKeepsIdsUnique(m: Manager, c: nat, s: Side, price: int, quantity: nat, allowed: bool)
    requires IdsUnique(m)
    ensures var (m', rs) := Move(m, c, s, price, quantity, allowed);
      IdsUnique(m') && forall r :: r in rs ==> r.client == c
  {
  }

  lemma QuoteKeeps(cfg: RiskConfig, w: World, s: Side, price: int, quantity: nat, lossExceeded: bool)
    requires Consistent(w)
    ensures Consistent(Quoted(cfg, w, s, price, quantity, lossExceeded))
  {
    hide Announced, Withdrawing, IdsUnique, Booked, Restrict, LedgerOf, IsLedger, Accounts, WellFormed, Move, CheckPreTradeRisk;
    var allowed := CheckPreTradeRisk(cfg, w.position, lossExceeded, s, quantity) == Allowed;
    QuoteKeepsBooked(w.manager, w.client, s, price, quantity, allowed);
    QuoteKeepsIdsUnique(w.manager, w.client, s, price, quantity, allowed);
    var w' := Quoted(cfg, w, s, price, quantity, lossExceeded);
    forall t: Side ensures Announced(w', t) && Withdrawing(w', t) {
      assert Announced(w, t) && Withdrawing(w, t);
      QuoteAnnounces(w, s, price, quantity, allowed, t);
      QuoteWithdraws(w, s, price, quantity, allowed, t);
    }
  }

  // ----- The exchange serving a request

  lemma WellFormedIsOwned(b: Book)
    requires WellFormed(b)
    ensures Owned(b.orders)
  {
  }

  lemma RestsIffInLedger(o: Orders, c: nat, orderId: nat)
    requires UniqueOwners(o)
    ensures Rests(o, Owner(c, orderId)) <==> Owner(c, orderId) in Restrict(LedgerOf(o), c)
  {
    hide LedgerOf;
  }

  /** The order of a new request at the head of the channel does not rest yet: the slot that sent it
      still waits for the acknowledgement. */
  lemma HeadIsNew(w: World)
    requires Consistent(w) && w.requests != [] && w.requests[0].NewOrder?
    ensures !Rests(w.book.orders, Owner(w.client, w.requests[0].orderId))
    ensures var r := w.requests[0];
      var slot := SlotOf(w.manager, r.side);
      slot.state == PendingNew && slot.orderId == r.orderId && Accepts(w.responses, r.side) == []
  {
    hide Restrict, LedgerOf, IsLedger, Accounts, WellFormed, Rests, Booked, UniqueOwners;
    var r := w.requests[0];
    var k := Owner(w.client, r.orderId);
    assert News(w.requests, r.side)[0] == r;
    assert Announced(w, r.side) && Announced(w, Opposite(r.side));
    NotBooked(w.manager, w.client, r.side);
    var l, l' := Booked(w.manager, w.client), Restrict(LedgerOf(w.book.orders), w.client);
    RestsIffInLedger(w.book.orders, w.client, r.orderId);
    if k in l' {
      OpenedByAccept(l, w.responses, l', k);
      var i :| 0 <= i < |w.responses| && w.responses[i].kind == Accepted && About(w.responses[i]) == k && w.responses[i].side.Some?;
      AcceptIsExpected(w, i);
    }
  }

  lemma AcceptIsExpected(w: World, i: nat)
    requires i < |w.responses| && w.responses[i].kind == Accepted && w.responses[i].side.Some?
    requires forall s: Side :: Announced(w, s)
    ensures var t := w.responses[i].side.value;
      && SlotOf(w.manager, t).state == PendingNew && About(w.responses[i]) == Owner(w.client, SlotOf(w.manager, t).orderId)
      && News(w.requests, t) == []
  {
    hide News;
    var t := w.responses[i].side.value;
    assert Announced(w, t);
    AcceptIsListed(w.responses, i, t);
  }

  lemma NotBooked(m: Manager, c: nat, s: Side)
    requires IdsUnique(m) && SlotOf(m, s).state == PendingNew
    ensures Owner(c, SlotOf(m, s).orderId) !in Booked(m, c)
  {
  }

  lemma RestsAfter(b: Book, r: Request, k: Owner)
    requires WellFormed(b) && Rests(Process(b, r).book.orders, k)
    ensures Rests(b.orders, k) || (r.NewOrder? && k == Owner(r.client, r.orderId))
    ensures r.CancelOrder? ==> k != Owner(r.client, r.orderId)
  {
    hide Match, NextPriority, Uncrossed, PrioritiesAscend, SlotsApart;
    var id :| OwnedBy(Process(b, r).book.orders, k, id);
    match r
    case NewOrder(client, orderId, side, price, quantity) =>
      var t := Taker(b.ticker, Owner(client, orderId), b.nextId, side, price);
      MatchShrinks(b.orders, t, quantity);
      if id != b.nextId {
        assert OwnedBy(b.orders, k, id);
      }
    case CancelOrder(client, orderId) =>
      assert OwnedBy(b.orders, k, id);
  }

  /** Serving an admissible request keeps the two accounts in step. */
  lemma ServeReports(w: World, r: Request)
    requires WellFormed(w.book) && Reported(w) && Admissible(w.book, r)
    ensures WellFormed(Served(w, r).book) && Reported(Served(w, r))
  {
    hide WellFormed, Accounts, Restrict, LedgerOf, IsLedger, Booked, Mine, Process, Admissible, UniqueOwners;
    WellFormedIsOwned(w.book);
    var c := w.client;
    var s := Process(w.book, r);
    ProcessKeepsWellFormed(w.book, r);
    ProcessAccounts(w.book, r);
    AccountsRestrict(LedgerOf(w.book.orders), s.responses, LedgerOf(s.book.orders), c);
    AccountsConcat(Booked(w.manager, c), w.responses, Restrict(LedgerOf(w.book.orders), c),
                   Mine(s.responses, c), Restrict(LedgerOf(s.book.orders), c));
  }

  lemma HeadIsAdmissible(w: World)
    requires Consistent(w) && Enabled(w, Serve)
    ensures Admissible(w.book, w.requests[0])
  {
    hide Announced, Withdrawing, IdsUnique, Reported, WellFormed;
    var r := w.requests[0];
    if r.NewOrder? {
      HeadIsNew(w);
      assert r.client == w.client;
      assert forall id :: id in w.book.orders ==> !OwnedBy(w.book.orders, Owner(w.client, r.orderId), id);
    }
  }

  lemma ServeAnnounces(w: World, t: Side)
    requires Consistent(w) && Enabled(w, Serve)
    ensures Announced(Served(w.(requests := w.requests[1..]), w.requests[0]), t)
  {
    hide Process, Mine, Accepts, Withdrawing, Reported, IdsUnique, WellFormed;
    WellFormedIsOwned(w.book);
    var r := w.requests[0];
    assert Announced(w, t);
    assert r.client == w.client;
    NewsStep(r, w.requests[1..], t);
    assert w.requests == [r] + w.requests[1..];
    ProcessAccepts(w.book, r, w.client, t);
    AcceptsConcat(w.responses, Mine(Process(w.book, r).responses, w.client), t);
  }

  lemma ServeWithdraws(w: World, t: Side)
    requires Consistent(w) && Enabled(w, Serve)
    ensures Withdrawing(Served(w.(requests := w.requests[1..]), w.requests[0]), t)
  {
    hide Process, Mine, Rests, Reported, Announced, WellFormed;
    WellFormedIsOwned(w.book);
    var r := w.requests[0];
    var w' := Served(w.(requests := w.requests[1..]), r);
    var slot := SlotOf(w.manager, t);
    var k := Owner(w.client, slot.orderId);
    assert Withdrawing(w, t);
    assert r.client == w.client;
    if slot.state == PendingCancel && Rests(w'.book.orders, k) {
      RestsAfter(w.book, r, k);
      if r.NewOrder? {
        HeadIsNew(w);
      }
    }
  }

  lemma ServeKeeps(w: World)
    requires Consistent(w) && Enabled(w, Serve)
    ensures Consistent(Served(w.(requests := w.requests[1..]), w.requests[0]))
  {
    hide Process, Mine, Announced, Withdrawing, Admissible, WellFormed, Fits;
    hide Booked, Accounts, Restrict, LedgerOf, IsLedger, UniqueOwners;
    WellFormedIsOwned(w.book);
    var v := w.(requests := w.requests[1..]);
    HeadIsAdmissible(w);
    assert Reported(v);
    ServeReports(v, w.requests[0]);
    var w' := Served(v, w.requests[0]);
    forall t: Side ensures Announced(w', t) && Withdrawing(w', t) {
      ServeAnnounces(w, t);
      ServeWithdraws(w, t);
    }
  }

  lemma OthersKeep(w: World, r: Request)
    requires Consistent(w) && r.client != w.client && Admissible(w.book, r)
    ensures Consistent(Served(w, r))
  {
    hide Process, Mine, Admissible, WellFormed, Rests, News, Accepts;
    hide Booked, Accounts, Restrict, LedgerOf, IsLedger, UniqueOwners, IdsUnique;
    WellFormedIsOwned(w.book);
    ServeReports(w, r);
    var w' := Served(w, r);
    forall t: Side ensures Announced(w', t) && Withdrawing(w', t) {
      assert Announced(w, t) && Withdrawing(w, t);
      ProcessAccepts(w.book, r, w.client, t);
      AcceptsConcat(w.responses, Mine(Process(w.book, r).responses, w.client), t);
      var k := Owner(w.client, SlotOf(w.manager, t).orderId);
      if Rests(w'.book.orders, k) {
        RestsAfter(w.book, r, k);
      }
    }
  }

  // ----- The client hearing a response

  /** A response that fits the slots: it concerns the order its side's slot currently holds, in the
      state and with the quantity the slot has. */
  predicate Concerns(m: Manager, c: nat, r: Response) {
    r.kind == CancelRejected ||
    (r.side.Some? &&
     var slot := SlotOf(m, r.side.value);
     && About(r) == Owner(c, slot.orderId)
     && (match r.kind
         case Accepted => slot.state == PendingNew && r.leaves == slot.quantity
         case Filled => Working(slot) && r.executed > 0 && r.executed + r.leaves == slot.quantity
         case _ => Working(slot) && r.leaves == slot.quantity))
  }

  lemma BookedEntry(m: Manager, c: nat, k: Owner)
    requires IdsUnique(m) && k in Booked(m, c)
    ensures var slot := SlotOf(m, Booked(m, c)[k].side);
      Working(slot) && k == Owner(c, slot.orderId) && Booked(m, c)[k].quantity == slot.quantity
  {
  }

  lemma HeadConcerns(w: World)
    requires IdsUnique(w.manager) && (forall s: Side :: Announced(w, s)) && Reported(w) && w.responses != []
    ensures Concerns(w.manager, w.client, w.responses[0])
    ensures Account(Booked(w.manager, w.client), w.responses[0]).Some?
  {
    hide Booked, Restrict, LedgerOf, IsLedger, UniqueOwners, News;
    var r := w.responses[0];
    var l := Booked(w.manager, w.client);
    if r.kind == Accepted {
      assert Announced(w, r.side.value);
      assert Accepts(w.responses, r.side.value)[0] == r;
    } else if r.kind != CancelRejected {
      BookedEntry(w.manager, w.client, About(r));
    }
  }

  lemma BookedWith(m: Manager, c: nat, s: Side, slot: Slot)
    requires IdsUnique(m) && SlotOf(m, s).state != Invalid && slot.orderId == SlotOf(m, s).orderId
    ensures var k := Owner(c, slot.orderId);
      Booked(WithSlot(m, s, slot), c) == if Working(slot) then Put(Booked(m, c), k, s, slot.quantity) else Booked(m, c) - {k}
  {
    var k := Owner(c, slot.orderId);
    if s == Sell {
      assert Booked(m, c) - {k} == Entry(map[], Owner(c, m.buy.orderId), Buy, m.buy);
    } else {
      assert Booked(m, c) - {k} == Entry(map[], Owner(c, m.sell.orderId), Sell, m.sell);
    }
  }

  lemma ReactBooks(m: Manager, c: nat, r: Response)
    requires IdsUnique(m) && Concerns(m, c, r) && Account(Booked(m, c), r).Some?
    ensures Account(Booked(m, c), r) == Some(Booked(React(m, r), c)) && IdsUnique(React(m, r))
  {
    if r.kind != CancelRejected {
      hide Booked;
      BookedWith(m, c, r.side.value, SlotOf(React(m, r), r.side.value));
      if r.kind == Filled {
        BookedEntry(m, c, About(r));
      }
    }
  }

  lemma HearAnnounces(w: World, t: Side)
    requires Announced(w, t) && w.responses != [] && Concerns(w.manager, w.client, w.responses[0])
    ensures Announced(Heard(w), t)
  {
    hide News;
    assert w.responses == [w.responses[0]] + w.responses[1..];
    AcceptsStep(w.responses[0], w.responses[1..], t);
  }

  lemma HearWithdraws(w: World, t: Side)
    requires Withdrawing(w, t) && w.responses != [] && Concerns(w.manager, w.client, w.responses[0])
    ensures Withdrawing(Heard(w), t)
  {
    hide Rests;
  }

  lemma HearKeeps(w: World)
    requires Consistent(w) && w.responses != []
    ensures Consistent(Heard(w))
  {
    hide WellFormed, Announced, Withdrawing, Booked, Restrict, LedgerOf, IsLedger, UniqueOwners, React, Account, Concerns;
    hide IdsUnique;
    HeadConcerns(w);
    ReactBooks(w.manager, w.client, w.responses[0]);
    forall t: Side ensures Announced(Heard(w), t) && Withdrawing(Heard(w), t) {
      assert Announced(w, t) && Withdrawing(w, t);
      HearAnnounces(w, t);
      HearWithdraws(w, t);
    }
  }

  // ----- Every run

  lemma NextKeeps(cfg: RiskConfig, w: World, e: Event)
    requires Consistent(w) && Enabled(w, e)
    ensures Owned(w.book.orders) && Consistent(Next(cfg, w, e))
  {
    hide WellFormed, Reported, Quoted, Served, Heard, Rests, News, Accepts, Admissible, Fits;
    WellFormedIsOwned(w.book);
    match e
    case Quote(s, price, quantity, lossExceeded) => QuoteKeeps(cfg, w, s, price, quantity, lossExceeded);
    case Serve => ServeKeeps(w);
    case Others(r) => OthersKeep(w, r);
    case Hear => HearKeeps(w);
    case Skip => SkipKeeps(w);
  }

  lemma SkipKeeps(w: World)
    requires Consistent(w)
    ensures Consistent(w.(manager := w.manager.(nextId := w.manager.nextId + 1)))
  {
    hide WellFormed, Rests, News, Accepts, Accounts, Restrict, LedgerOf, IsLedger, UniqueOwners;
    var w' := w.(manager := w.manager.(nextId := w.manager.nextId + 1));
    forall t: Side ensures Announced(w', t) && Withdrawing(w', t) {
      assert Announced(w, t) && Withdrawing(w, t);
    }
  }

  /** In every run the client's account and the exchange's differ by exactly what is under way. */
  lemma {:induction false} RunIsConsistent(cfg: RiskConfig, w: World, es: seq<Event>)
    requires Consistent(w) && Runs(cfg, w, es)
    ensures Consistent(After(cfg, w, es))
    decreases es
  {
    if es != [] {
      hide Consistent, Next, Enabled;
      NextKeeps(cfg, w, es[0]);
      RunIsConsistent(cfg, Next(cfg, w, es[0]), es[1..]);
    }
  }

  lemma StartIsConsistent(client: nat, ticker: nat)
    ensures Consistent(Start(client, ticker))
  {
    hide LedgerOf;
    var o: Orders := map[];
    assert Restrict(LedgerOf(o), client) == map[];
  }

  lemma EveryRunIsConsistent(cfg: RiskConfig, client: nat, ticker: nat, es: seq<Event>)
    requires Runs(cfg, Start(client, ticker), es)
    ensures Consistent(After(cfg, Start(client, ticker), es))
  {
    hide Consistent, Runs, After;
    StartIsConsistent(client, ticker);
    RunIsConsistent(cfg, Start(client, ticker), es);
  }
}

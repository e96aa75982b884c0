/**
 What holds in every run of a client against the exchange: the position limit, whom each response
 concerns, and whether a pending slot is ever answered.
 */
module TradingLaws {
  import opened Domain
  import opened Messages
  import opened PriceTime
  import opened BookLaws
  import opened ClientAccount
  import opened OrderManager
  import opened TradingSystem

  // ----- The position limit

  /** What the order of a slot may still execute. */
  function Outstanding(slot: Slot): nat {
    if Working(slot) || slot.state == PendingNew then slot.quantity else 0
  }

  /** Even if everything outstanding on one side executed, the position would be within the limit. */
  predicate Limited(cfg: RiskConfig, w: World) {
    && w.position + Outstanding(w.manager.buy) <= cfg.maxPosition
    && 0 - cfg.maxPosition <= w.position - Outstanding(w.manager.sell)
  }

  lemma QuoteKeepsLimited(cfg: RiskConfig, w: World, s: Side, price: int, quantity: nat, lossExceeded: bool)
    requires LimitsFit(cfg) && Limited(cfg, w)
    ensures Limited(cfg, Quoted(cfg, w, s, price, quantity, lossExceeded))
  {
    hide CheckPreTradeRisk;
    RiskCheckIsExact(cfg, w.position, lossExceeded, s, quantity);
  }

  lemma HearKeepsLimited(cfg: RiskConfig, w: World)
    requires Limited(cfg, w) && w.responses != [] && Concerns(w.manager, w.client, w.responses[0])
    ensures Limited(cfg, Heard(w))
  {
  }

  lemma NextKeepsLimited(cfg: RiskConfig, w: World, e: Event)
    requires LimitsFit(cfg) && Consistent(w) && Limited(cfg, w) && Enabled(w, e)
    ensures Owned(w.book.orders) && Limited(cfg, Next(cfg, w, e))
  {
    hide WellFormed, Reported, Quoted, Heard, Concerns, CheckPreTradeRisk, Process, Mine, Announced, Withdrawing, IdsUnique;
    WellFormedIsOwned(w.book);
    match e
    case Quote(s, price, quantity, lossExceeded) => QuoteKeepsLimited(cfg, w, s, price, quantity, lossExceeded);
    case Hear =>
      HeadConcerns(w);
      HearKeepsLimited(cfg, w);
    case _ =>
  }

  lemma {:induction false} RunIsLimited(cfg: RiskConfig, w: World, es: seq<Event>)
    requires LimitsFit(cfg) && Consistent(w) && Limited(cfg, w) && Runs(cfg, w, es)
    ensures Limited(cfg, After(cfg, w, es))
    decreases es
  {
    if es != [] {
      hide Consistent, Limited, Next, Enabled;
      NextKeeps(cfg, w, es[0]);
      NextKeepsLimited(cfg, w, es[0]);
      RunIsLimited(cfg, Next(cfg, w, es[0]), es[1..]);
    }
  }

  /** In every run from a flat position, whatever is quoted and however messages overlap, the position
      stays within the limit, with both sides' outstanding quantity counted against it. */
  lemma PositionStaysWithinLimit(cfg: RiskConfig, client: nat, ticker: nat, es: seq<Event>)
    requires LimitsFit(cfg) && Runs(cfg, Start(client, ticker), es)
    ensures var w := After(cfg, Start(client, ticker), es);
      && Within(cfg, w.position)
      && Within(cfg, w.position + Outstanding(w.manager.buy)) && Within(cfg, w.position - Outstanding(w.manager.sell))
  {
    hide Consistent, After;
    StartIsConsistent(client, ticker);
    RunIsLimited(cfg, Start(client, ticker), es);
  }

  /** With a limit of at most 46340, the product of any two positions of a run, which addFill
      computes in 32 bits, does not overflow; 46341 is too much. */
  lemma PositionProductFits(cfg: RiskConfig, p: int, q: int)
    requires cfg.maxPosition <= 46340 && Within(cfg, p) && Within(cfg, q)
    ensures Wrap32(p * q) == p * q
    ensures 46341 * 46341 >= TWO_31
  {
    ProductIsBounded(p, q, 46340);
    WrapIsIdentity(p * q);
  }

  lemma ProductIsBounded(p: int, q: int, b: nat)
    requires 0 - b <= p <= b && 0 - b <= q <= b
    ensures -(b * b) <= p * q <= b * b
  {
    assert (b - p) * (b + q) >= 0 && (b + p) * (b - q) >= 0;
    assert (b - p) * (b - q) >= 0 && (b + p) * (b + q) >= 0;
  }

  // ----- Whom a response concerns

  /** Every response under way that names a side is about the order which that side's slot holds now. */
  lemma ResponsesConcernTheSlot(w: World, s: Side)
    requires Consistent(w)
    ensures forall i :: 0 <= i < |w.responses| && w.responses[i].side == Some(s) ==>
      About(w.responses[i]) == Owner(w.client, SlotOf(w.manager, s).orderId)
  {
    hide WellFormed, Accounts, Booked, Restrict, LedgerOf, IsLedger, News, Withdrawing;
    var k := Owner(w.client, SlotOf(w.manager, s).orderId);
    var l := Booked(w.manager, w.client);
    assert Announced(w, s);
    forall j | j in l && l[j].side == s ensures j == k {
      BookedEntry(w.manager, w.client, j);
    }
    ResponsesAreAbout(l, w.responses, Restrict(LedgerOf(w.book.orders), w.client), s, k);
  }

  lemma {:induction false} NewsListed(qs: seq<Request>, q: Request)
    requires q in qs && q.NewOrder?
    ensures q in News(qs, q.side)
    decreases qs
  {
    if q != qs[0] {
      NewsListed(qs[1..], q);
    }
  }

  /** An idle slot is idle everywhere: nothing of its side rests, is being sent, or is being reported. */
  lemma IdleSlotIsIdleEverywhere(w: World, s: Side)
    requires Consistent(w) && SlotOf(w.manager, s).state in {Invalid, Dead}
    ensures forall id :: id in w.book.orders && Belongs(w.book.orders[id].owner, w.client) ==> w.book.orders[id].side != s
    ensures forall q :: q in w.requests && q.NewOrder? ==> q.side != s
    ensures forall r :: r in w.responses ==> r.side != Some(s)
  {
    hide WellFormed, Accounts, Booked, LedgerOf, News, Withdrawing;
    var l := Booked(w.manager, w.client);
    var l' := Restrict(LedgerOf(w.book.orders), w.client);
    assert Announced(w, s);
    forall j | j in l ensures l[j].side != s {
      BookedEntry(w.manager, w.client, j);
    }
    QuietStaysQuiet(l, w.responses, l', s);
    forall id | id in w.book.orders && Belongs(w.book.orders[id].owner, w.client) ensures w.book.orders[id].side != s {
      assert w.book.orders[id].owner in l';
    }
    forall q | q in w.requests && q.NewOrder? ensures q.side != s {
      NewsListed(w.requests, q);
    }
  }

  /** The exchange never holds more than one order of the client on a side: the one in the slot. */
  lemma AtMostOneRestingOrder(w: World, id: nat)
    requires Consistent(w) && id in w.book.orders && Belongs(w.book.orders[id].owner, w.client)
    ensures w.book.orders[id].owner.orderId == SlotOf(w.manager, w.book.orders[id].side).orderId
  {
    hide WellFormed, Accounts, Booked, LedgerOf, News, Withdrawing;
    var s := w.book.orders[id].side;
    var k := Owner(w.client, SlotOf(w.manager, s).orderId);
    var l := Booked(w.manager, w.client);
    var l' := Restrict(LedgerOf(w.book.orders), w.client);
    assert Announced(w, s);
    forall j | j in l && l[j].side == s ensures j == k {
      BookedEntry(w.manager, w.client, j);
    }
    ResponsesAreAbout(l, w.responses, l', s, k);
    assert w.book.orders[id].owner in l';
  }

  // ----- Pending slots

  /** A pending slot's answer is on its way: the request is still in its channel or the answer is. The
      one exception is a cancel of an order whose quantity is zero. */
  lemma PendingSlotIsAnswered(w: World, s: Side)
    requires Consistent(w)
    ensures var slot := SlotOf(w.manager, s);
      var k := Owner(w.client, slot.orderId);
      && (slot.state == PendingNew ==>
            || NewOrder(w.client, slot.orderId, s, slot.price, slot.quantity) in w.requests
            || exists i :: 0 <= i < |w.responses| && w.responses[i].kind == Accepted && About(w.responses[i]) == k)
      && (slot.state == PendingCancel && slot.quantity > 0 ==>
            CancelOrder(w.client, slot.orderId) in w.requests || exists i :: 0 <= i < |w.responses| && Ends(w.responses[i], k))
  {
    hide WellFormed, Accounts, LedgerOf, IsLedger, Rests, Restrict;
    var slot := SlotOf(w.manager, s);
    var k := Owner(w.client, slot.orderId);
    assert Announced(w, s) && Withdrawing(w, s);
    if slot.state == PendingNew {
      if News(w.requests, s) != [] {
        NewsAreRequests(w.requests, s, News(w.requests, s)[0]);
      } else {
        AcceptsAreResponses(w.responses, s, Accepts(w.responses, s)[0]);
        var i :| 0 <= i < |w.responses| && w.responses[i] == Accepts(w.responses, s)[0];
        assert w.responses[i].kind == Accepted && About(w.responses[i]) == k;
      }
    } else if slot.state == PendingCancel && slot.quantity > 0 && CancelOrder(w.client, slot.orderId) !in w.requests {
      RestsIffInLedger(w.book.orders, w.client, slot.orderId);
      ClosedByEnd(Booked(w.manager, w.client), w.responses, Restrict(LedgerOf(w.book.orders), w.client), k);
    }
  }

  lemma {:induction false} NewsAreRequests(qs: seq<Request>, s: Side, q: Request)
    requires q in News(qs, s)
    ensures q in qs
    decreases qs
  {
    if q != qs[0] {
      NewsAreRequests(qs[1..], s, q);
    }
  }

  lemma {:induction false} AcceptsAreResponses(rs: seq<Response>, s: Side, r: Response)
    requires r in Accepts(rs, s)
    ensures r in rs && r.kind == Accepted
    decreases rs
  {
    if r in Accepts(rs[1..], s) {
      AcceptsAreResponses(rs[1..], s, r);
    }
  }

  /** With both channels empty, the client's account is the exchange's, no slot waits for an
      acknowledgement, and one waits for a cancellation only if its quantity is zero. */
  lemma QuietSystemAgrees(w: World)
    requires Consistent(w) && w.requests == [] && w.responses == []
    ensures Booked(w.manager, w.client) == Restrict(LedgerOf(w.book.orders), w.client)
    ensures forall s: Side :: SlotOf(w.manager, s).state != PendingNew
    ensures forall s: Side :: SlotOf(w.manager, s).state == PendingCancel ==> SlotOf(w.manager, s).quantity == 0
  {
    forall s: Side
      ensures SlotOf(w.manager, s).state != PendingNew
      ensures SlotOf(w.manager, s).state == PendingCancel ==> SlotOf(w.manager, s).quantity == 0
    {
      hide Consistent;
      PendingSlotIsAnswered(w, s);
    }
  }

  // ----- Orders of quantity zero

  /** The slot waits for the cancellation of an order that never rested. */
  predicate Stuck(m: Manager, s: Side) {
    SlotOf(m, s).state == PendingCancel && SlotOf(m, s).quantity == 0
  }

  /** Such a slot never changes again, in any run. */
  lemma {:induction false} StuckForGood(cfg: RiskConfig, w: World, s: Side, es: seq<Event>)
    requires Consistent(w) && Stuck(w.manager, s) && Runs(cfg, w, es)
    ensures SlotOf(After(cfg, w, es).manager, s) == SlotOf(w.manager, s)
    decreases es
  {
    if es != [] {
      hide Consistent, Enabled;
      NextKeeps(cfg, w, es[0]);
      StuckStays(cfg, w, s, es[0]);
      StuckForGood(cfg, Next(cfg, w, es[0]), s, es[1..]);
    }
  }

  lemma StuckStays(cfg: RiskConfig, w: World, s: Side, e: Event)
    requires Consistent(w) && Stuck(w.manager, s) && Enabled(w, e)
    ensures Owned(w.book.orders) && SlotOf(Next(cfg, w, e).manager, s) == SlotOf(w.manager, s)
  {
    hide WellFormed, Reported, CheckPreTradeRisk, Process, Mine, Announced, Withdrawing, IdsUnique, Booked, Account;
    WellFormedIsOwned(w.book);
    if e == Hear {
      HeadConcerns(w);
      HearStuck(w, s);
    }
  }

  lemma HearStuck(w: World, s: Side)
    requires Stuck(w.manager, s) && w.responses != [] && Concerns(w.manager, w.client, w.responses[0])
    requires Account(Booked(w.manager, w.client), w.responses[0]).Some? && IdsUnique(w.manager)
    ensures SlotOf(React(w.manager, w.responses[0]), s) == SlotOf(w.manager, s)
  {
    var r := w.responses[0];
    if r.kind == Cancelled && r.side == Some(s) {
      BookedEntry(w.manager, w.client, About(r));
    }
  }

  /** Every order the client believes to be at work, or is about to send, has a quantity. */
  predicate Sized(m: Manager) {
    forall s: Side :: Working(SlotOf(m, s)) || SlotOf(m, s).state == PendingNew ==> SlotOf(m, s).quantity > 0
  }

  lemma NextKeepsSized(cfg: RiskConfig, w: World, e: Event)
    requires Consistent(w) && Sized(w.manager) && Enabled(w, e) && (e.Quote? ==> e.quantity > 0)
    ensures Owned(w.book.orders) && Sized(Next(cfg, w, e).manager)
  {
    hide WellFormed, Reported, CheckPreTradeRisk, Process, Mine, Announced, Withdrawing, IdsUnique;
    WellFormedIsOwned(w.book);
    var m, m' := w.manager, Next(cfg, w, e).manager;
    if e == Hear {
      HeadConcerns(w);
    }
    forall s: Side | Working(SlotOf(m', s)) || SlotOf(m', s).state == PendingNew ensures SlotOf(m', s).quantity > 0 {
      assert Working(SlotOf(m, s)) || SlotOf(m, s).state == PendingNew ==> SlotOf(m, s).quantity > 0;
    }
  }

  /** A strategy that never quotes a quantity of zero never gets a slot stuck: whenever the channels
      are empty, no slot is pending at all. */
  lemma {:induction false} SizedQuotesNeverStick(cfg: RiskConfig, w: World, es: seq<Event>)
    requires Consistent(w) && Sized(w.manager) && Runs(cfg, w, es)
    requires forall i :: 0 <= i < |es| && es[i].Quote? ==> es[i].quantity > 0
    ensures var w' := After(cfg, w, es);
      w'.requests == [] && w'.responses == [] ==>
        forall s: Side :: SlotOf(w'.manager, s).state !in {PendingNew, PendingCancel}
    decreases es
  {
    hide Consistent, Next, Enabled, Sized;
    if es == [] {
      QuietIsNotPending(w);
    } else {
      NextKeeps(cfg, w, es[0]);
      NextKeepsSized(cfg, w, es[0]);
      SizedQuotesNeverStick(cfg, Next(cfg, w, es[0]), es[1..]);
    }
  }

  lemma QuietIsNotPending(w: World)
    requires Consistent(w) && Sized(w.manager)
    ensures w.requests == [] && w.responses == [] ==>
      forall s: Side :: SlotOf(w.manager, s).state !in {PendingNew, PendingCancel}
  {
    hide Consistent;
    if w.requests == [] && w.responses == [] {
      QuietSystemAgrees(w);
    }
  }

  /** Quote nothing at a price, then quote at another. */
  const STICKING: seq<Event> := [Quote(Buy, 100, 0, false), Serve, Hear, Quote(Buy, 101, 0, false), Serve, Hear]

  /** The worlds that run goes through. */
  function Sticking(ticker: nat, i: nat): World {
    var slot := Slot(PendingNew, 1, 100, 0);
    var b := Book(ticker, map[], 2);
    if i == 0 then Start(0, ticker)
    else if i == 1 then
      World(0, Manager(slot, UNUSED, 2), 0, [NewOrder(0, 1, Buy, 100, 0)], Book(ticker, map[], 1), [])
    else if i == 2 then
      World(0, Manager(slot, UNUSED, 2), 0, [], b, [Response(Accepted, ticker, 0, 1, 1, Some(Buy), 100, 0, 0)])
    else if i == 3 then World(0, Manager(slot.(state := Live), UNUSED, 2), 0, [], b, [])
    else if i == 4 then World(0, Manager(slot.(state := PendingCancel), UNUSED, 2), 0, [CancelOrder(0, 1)], b, [])
    else if i == 5 then
      World(0, Manager(slot.(state := PendingCancel), UNUSED, 2), 0, [], b, [Rejection(ticker, Owner(0, 1))])
    else World(0, Manager(slot.(state := PendingCancel), UNUSED, 2), 0, [], b, [])
  }

  lemma StickingStep(cfg: RiskConfig, ticker: nat, i: nat)
    requires LimitsFit(cfg) && i < |STICKING|
    ensures var w := Sticking(ticker, i);
      Owned(w.book.orders) && Enabled(w, STICKING[i]) && Next(cfg, w, STICKING[i]) == Sticking(ticker, i + 1)
  {
    hide CheckPreTradeRisk, Submit, Withdraw, Mine;
    var w := Sticking(ticker, i);
    if i == 0 || i == 3 {
      RiskCheckIsExact(cfg, 0, false, Buy, 0);
    } else if i == 1 {
      SubmitNothing(w.book, Owner(0, 1), Buy, 100);
      MineOne(Response(Accepted, ticker, 0, 1, 1, Some(Buy), 100, 0, 0), 0);
    } else if i == 4 {
      WithdrawNothing(w.book, Owner(0, 1));
      MineOne(Rejection(ticker, Owner(0, 1)), 0);
    }
  }

  lemma {:induction false} StickingRuns(cfg: RiskConfig, ticker: nat, i: nat)
    requires LimitsFit(cfg) && i <= |STICKING|
    ensures Runs(cfg, Sticking(ticker, i), STICKING[i..]) && After(cfg, Sticking(ticker, i), STICKING[i..]) == Sticking(ticker, 6)
    decreases |STICKING| - i
  {
    if i < |STICKING| {
      hide Next, Enabled, Sticking, Owned;
      StickingStep(cfg, ticker, i);
      StickingRuns(cfg, ticker, i + 1);
      assert STICKING[i..][1..] == STICKING[i + 1..];
    }
  }

  /** The exchange accepts an order of quantity zero and forgets it; its cancel is rejected, and the
      client's slot waits for a cancellation with nothing under way. */
  lemma ZeroQuantitySticks(cfg: RiskConfig, ticker: nat)
    requires LimitsFit(cfg)
    ensures Runs(cfg, Start(0, ticker), STICKING)
    ensures var w := After(cfg, Start(0, ticker), STICKING);
      Stuck(w.manager, Buy) && w.requests == [] && w.responses == []
  {
    hide Runs, After;
    StickingRuns(cfg, ticker, 0);
    assert STICKING[0..] == STICKING;
  }

  /** The exchange acknowledges an order of quantity zero and is done with it. */
  lemma SubmitNothing(b: Book, owner: Owner, side: Side, price: int)
    requires Owned(b.orders) && owner.Owner?
    ensures Submit(b, owner, side, price, 0) ==
      Step(b.(nextId := b.nextId + 1),
           [Response(Accepted, b.ticker, owner.client, owner.orderId, b.nextId, Some(side), price, 0, 0)], [])
  {
    hide Best, NextPriority;
  }

  lemma WithdrawNothing(b: Book, owner: Owner)
    requires owner.Owner? && !Rests(b.orders, owner)
    ensures Withdraw(b, owner) == Step(b, [Rejection(b.ticker, owner)], [])
  {
  }

  lemma MineOne(r: Response, c: nat)
    requires About(r).client == c
    ensures Mine([r], c) == [r]
  {
  }

  // ----- Addressing

  /** Every response to a request names the client and the ticker it is about, except that the
      acknowledgement of a new order does so exactly if client and ticker are the same number. */
  lemma ResponsesAreAddressed(b: Book, r: Request)
    requires WellFormed(b)
    ensures var rs := Process(b, r).responses;
      (forall i :: 0 <= i < |rs| ==> rs[i].client == About(rs[i]).client && rs[i].ticker == b.ticker) <==>
      (r.NewOrder? ==> r.client == b.ticker)
  {
    hide Match, NextPriority, Best, Uncrossed, PrioritiesAscend, SlotsApart, UniqueOwners;
    var rs := Process(b, r).responses;
    if r.NewOrder? {
      var t := Taker(b.ticker, Owner(r.client, r.orderId), b.nextId, r.side, r.price);
      MatchOnlyFills(b.orders, t, r.quantity);
      MatchTickers(b.orders, t, r.quantity);
      var fills := Match(b.orders, t, r.quantity).responses;
      assert rs == [rs[0]] + fills;
      assert forall i :: 0 < i < |rs| ==> rs[i] in fills;
    }
  }

  lemma {:induction false} MatchTickers(o: Orders, t: Taker, leaves: nat)
    requires Owned(o) && t.owner.Owner?
    ensures forall r :: r in Match(o, t, leaves).responses ==> r.ticker == t.ticker
    decreases |o|, leaves
  {
    var best := Best(o, Opposite(t.side));
    if leaves > 0 && best.Some? && Crosses(t, o[best.value].price) {
      var f := Fill(o, t, best.value, leaves);
      MatchTickers(f.orders, t, f.leaves);
    }
  }

  /** The responses that the fields as written take to one client's slots for one ticker. */
  function AsWritten(rs: seq<Response>, c: nat, t: nat): seq<Response> {
    if rs == [] then []
    else (if rs[0].client == c && rs[0].ticker == t then [rs[0]] else []) + AsWritten(rs[1..], c, t)
  }

  lemma {:induction false} SameDelivery(rs: seq<Response>, c: nat, t: nat)
    requires forall r :: r in rs ==> r.kind != Accepted && r.ticker == t
    ensures AsWritten(rs, c, t) == Mine(rs, c)
    decreases rs
  {
    if rs != [] {
      SameDelivery(rs[1..], c, t);
    }
  }

  lemma {:induction false} NothingForTicker(rs: seq<Response>, c: nat, t: nat)
    requires forall r :: r in rs ==> r.ticker != t
    ensures AsWritten(rs, c, t) == []
    decreases rs
  {
    if rs != [] {
      NothingForTicker(rs[1..], c, t);
    }
  }

  /** What belongs in the slots of client `c` for ticker `t` among the responses of ticker `u`'s book. */
  function Intended(rs: seq<Response>, u: nat, c: nat, t: nat): seq<Response> {
    if u == t then Mine(rs, c) else []
  }

  /** Whichever book a request goes to, the fields as written take to client c's slots for ticker t exactly
      what belongs there, with two exceptions, both for c and t of different numbers: a new order of client c
      on ticker t loses its acknowledgement, and a new order of client t on ticker c has its own delivered
      here. */
  lemma DeliveredAsWrittenIff(b: Book, r: Request, c: nat, t: nat)
    requires WellFormed(b)
    ensures var rs := Process(b, r).responses;
      AsWritten(rs, c, t) == Intended(rs, b.ticker, c, t) <==>
      (r.NewOrder? && c != t ==> !(r.client == c && b.ticker == t) && !(r.client == t && b.ticker == c))
  {
    hide Match, NextPriority, Best, Uncrossed, PrioritiesAscend, SlotsApart, UniqueOwners;
    var rs := Process(b, r).responses;
    var later := if r.NewOrder? then rs[1..] else rs;
    if r.NewOrder? {
      var taker := Taker(b.ticker, Owner(r.client, r.orderId), b.nextId, r.side, r.price);
      MatchOnlyFills(b.orders, taker, r.quantity);
      MatchTickers(b.orders, taker, r.quantity);
      assert later == Match(b.orders, taker, r.quantity).responses;
    }
    if b.ticker == t {
      SameDelivery(later, c, t);
    } else {
      NothingForTicker(later, c, t);
    }
  }

  /** For a client and a ticker of the same number, the joint system is the system as written: its book
      delivers the same, and no other book delivers anything. */
  lemma SameNumberIsAsWritten(w: World, r: Request, other: Book, q: Request)
    requires WellFormed(w.book) && w.client == w.book.ticker && WellFormed(other) && other.ticker != w.book.ticker
    ensures var s := Process(w.book, r);
      Served(w, r) == w.(book := s.book, responses := w.responses + AsWritten(s.responses, w.client, w.book.ticker))
    ensures AsWritten(Process(other, q).responses, w.client, w.book.ticker) == []
  {
    hide Process, AsWritten, Mine;
    WellFormedIsOwned(w.book);
    DeliveredAsWrittenIff(w.book, r, w.client, w.book.ticker);
    DeliveredAsWrittenIff(other, q, w.client, w.book.ticker);
  }

  lemma {:induction false} MatchClients(o: Orders, t: Taker, leaves: nat, bound: set<nat>)
    requires Owned(o) && t.owner.Owner? && t.owner.client in bound && forall id :: id in o ==> o[id].owner.client in bound
    ensures forall r :: r in Match(o, t, leaves).responses ==> r.client in bound
    decreases |o|, leaves
  {
    var best := Best(o, Opposite(t.side));
    if leaves > 0 && best.Some? && Crosses(t, o[best.value].price) {
      var f := Fill(o, t, best.value, leaves);
      MatchClients(f.orders, t, f.leaves, bound);
    }
  }

  /** When the client that sends a request and those with resting orders have a socket, the order server can
      send every response, unless the request is a new order on a ticker whose number, as a client, has none:
      then its ASSERT stops the exchange. */
  lemma SendingStopsIff(b: Book, r: Request, bound: set<nat>)
    requires WellFormed(b) && r.client in bound && forall id :: id in b.orders ==> b.orders[id].owner.client in bound
    ensures (forall q :: q in Process(b, r).responses ==> q.client in bound) <==> (r.NewOrder? ==> b.ticker in bound)
  {
    hide Match, NextPriority, Best, Uncrossed, PrioritiesAscend, SlotsApart, UniqueOwners;
    var rs := Process(b, r).responses;
    if r.NewOrder? {
      var t := Taker(b.ticker, Owner(r.client, r.orderId), b.nextId, r.side, r.price);
      MatchClients(b.orders, t, r.quantity, bound);
      assert rs == [rs[0]] + Match(b.orders, t, r.quantity).responses;
      assert rs[0] in rs && rs[0].client == b.ticker;
    }
  }
}

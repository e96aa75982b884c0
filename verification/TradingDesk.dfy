/**
 A trading client on all tickers at once: one order manager with one counter of order ids, one channel to
 the exchange and one back, and a book for each ticker. Seen from any one ticker it is the joint system of
 TradingSystem, so what holds there holds for every ticker here.
 */
module TradingDesk {
  import opened Domain
  import opened Messages
  import opened PriceTime
  import opened BookLaws
  import opened ClientAccount
  import opened OrderManager
  import TradingSystem
  import TradingLaws

  datatype Desk = Desk(
    client: nat, buys: seq<Slot>, sells: seq<Slot>, nextId: nat, positions: seq<int>,
    requests: seq<(nat, Request)>, books: seq<Book>, responses: seq<(nat, Response)>)

  datatype DeskEvent =
    | Quote(ticker: nat, side: Side, price: int, quantity: nat, lossExceeded: bool)
    | Serve
    | Others(ticker: nat, request: Request)
    | Hear

  ghost predicate Complete(d: Desk) {
    && |d.buys| == |d.sells| == |d.positions| == |d.books| == MAX_TICKERS
    && (forall i :: 0 <= i < |d.requests| ==> d.requests[i].0 < MAX_TICKERS)
    && (forall i :: 0 <= i < |d.responses| ==> d.responses[i].0 < MAX_TICKERS)
    && (forall t :: 0 <= t < MAX_TICKERS ==> Owned(d.books[t].orders))
  }

  ghost predicate Enabled(d: Desk, e: DeskEvent)
    requires Complete(d)
  {
    match e
    case Quote(t, _, _, _, _) => t < MAX_TICKERS
    case Serve => d.requests != [] && TradingSystem.Fits(d.books[d.requests[0].0], d.requests[0].1)
    case Others(t, r) => t < MAX_TICKERS && r.client != d.client && Admissible(d.books[t], r)
    case Hear => d.responses != []
  }

  function ManagerOf(d: Desk, t: nat): Manager
    requires t < |d.buys| && t < |d.sells|
  {
    Manager(d.buys[t], d.sells[t], d.nextId)
  }

  function WithManager(d: Desk, t: nat, m: Manager): Desk
    requires t < |d.buys| && t < |d.sells|
  {
    d.(buys := d.buys[t := m.buy], sells := d.sells[t := m.sell], nextId := m.nextId)
  }

  ghost function Served(d: Desk, t: nat, r: Request): Desk
    requires t < |d.books| && Owned(d.books[t].orders)
  {
    var s := Process(d.books[t], r);
    d.(books := d.books[t := s.book], responses := d.responses + Tagged(t, Mine(s.responses, d.client)))
  }

  function Quoted(cfg: seq<RiskConfig>, d: Desk, t: nat, s: Side, price: int, quantity: nat, lossExceeded: bool): Desk
    requires t < |d.buys| && t < |d.sells| && t < |d.positions| && t < |cfg|
  {
    var allowed := CheckPreTradeRisk(cfg[t], d.positions[t], lossExceeded, s, quantity) == Allowed;
    var (m, rs) := Move(ManagerOf(d, t), d.client, s, price, quantity, allowed);
    WithManager(d, t, m).(requests := d.requests + Tagged(t, rs))
  }

  function PositionAfter(position: int, r: Response): int {
    if r.kind == Filled && r.side.Some? then position + SideValue(r.side.value) * r.executed else position
  }

  function Heard(d: Desk): Desk
    requires d.responses != [] && d.responses[0].0 < |d.buys| && |d.buys| == |d.sells| == |d.positions|
  {
    var (t, r) := d.responses[0];
    WithManager(d, t, React(ManagerOf(d, t), r)).(
      responses := d.responses[1..], positions := d.positions[t := PositionAfter(d.positions[t], r)])
  }

  ghost function Next(cfg: seq<RiskConfig>, d: Desk, e: DeskEvent): Desk
    requires |cfg| == MAX_TICKERS && Complete(d) && Enabled(d, e)
  {
    match e
    case Quote(t, s, price, quantity, lossExceeded) => Quoted(cfg, d, t, s, price, quantity, lossExceeded)
    case Serve => Served(d.(requests := d.requests[1..]), d.requests[0].0, d.requests[0].1)
    case Others(t, r) => Served(d, t, r)
    case Hear => Heard(d)
  }

  /** The request that a step brings to the exchange, with its ticker. */
  function Arriving(d: Desk, e: DeskEvent): Option<(nat, Request)>
    requires e.Serve? ==> d.requests != []
  {
    match e
    case Serve => Some(d.requests[0])
    case Others(t, r) => Some((t, r))
    case _ => None
  }

  function Start(client: nat): Desk {
    Desk(client, seq(MAX_TICKERS, _ => UNUSED), seq(MAX_TICKERS, _ => UNUSED), 1, seq(MAX_TICKERS, _ => 0), [],
         seq(MAX_TICKERS, t requires 0 <= t < MAX_TICKERS => Book(t, map[], 1)), [])
  }

  ghost predicate Runs(cfg: seq<RiskConfig>, d: Desk, es: seq<DeskEvent>)
    requires |cfg| == MAX_TICKERS
    decreases es
  {
    es != [] ==> Complete(d) && Enabled(d, es[0]) && Runs(cfg, Next(cfg, d, es[0]), es[1..])
  }

  ghost function After(cfg: seq<RiskConfig>, d: Desk, es: seq<DeskEvent>): Desk
    requires |cfg| == MAX_TICKERS && Runs(cfg, d, es)
    decreases es
  {
    if es == [] then d else After(cfg, Next(cfg, d, es[0]), es[1..])
  }

  // ----- One ticker of the desk

  /** The messages for one ticker. */
  function For<T>(ms: seq<(nat, T)>, t: nat): seq<T> {
    if ms == [] then []
    else if ms[0].0 == t then [ms[0].1] + For(ms[1..], t)
    else For(ms[1..], t)
  }

  function Seen(d: Desk, t: nat): TradingSystem.World
    requires t < |d.buys| && |d.buys| == |d.sells| == |d.positions| == |d.books|
  {
    TradingSystem.World(d.client, ManagerOf(d, t), d.positions[t], For(d.requests, t), d.books[t], For(d.responses, t))
  }

  /** What a step of the desk is to one ticker: a step of its own, an order id used up, or nothing. */
  function EventFor(cfg: seq<RiskConfig>, d: Desk, e: DeskEvent, t: nat): Option<TradingSystem.Event>
    requires |cfg| == |d.buys| == |d.sells| == |d.positions|
    requires e.Quote? ==> e.ticker < |cfg|
    requires (e.Serve? ==> d.requests != []) && (e.Hear? ==> d.responses != [])
  {
    match e
    case Quote(u, s, price, quantity, lossExceeded) =>
      if u == t then Some(TradingSystem.Quote(s, price, quantity, lossExceeded))
      else if Quoted(cfg, d, u, s, price, quantity, lossExceeded).nextId != d.nextId then Some(TradingSystem.Skip)
      else None
    case Serve => if d.requests[0].0 == t then Some(TradingSystem.Serve) else None
    case Others(u, r) => if u == t then Some(TradingSystem.Others(r)) else None
    case Hear => if d.responses[0].0 == t then Some(TradingSystem.Hear) else None
  }

  lemma ForStep<T>(m: (nat, T), ms: seq<(nat, T)>, t: nat)
    ensures For([m] + ms, t) == if m.0 == t then [m.1] + For(ms, t) else For(ms, t)
  {
    assert ([m] + ms)[1..] == ms;
  }

  lemma {:induction false} ForTagged<T>(u: nat, ms: seq<T>, t: nat)
    ensures For(Tagged(u, ms), t) == if u == t then ms else []
    decreases ms
  {
    if ms != [] {
      ForTagged(u, ms[1..], t);
      ForStep((u, ms[0]), Tagged(u, ms[1..]), t);
    }
  }

  lemma {:induction false} ForConcat<T>(ms: seq<(nat, T)>, ns: seq<(nat, T)>, t: nat)
    ensures For(ms + ns, t) == For(ms, t) + For(ns, t)
    decreases ms
  {
    hide For;
    if ms == [] {
      assert ms + ns == ns;
      ForNone<T>(t);
      assert [] + For(ns, t) == For(ns, t);
    } else {
      var rest := ms[1..];
      ForConcat(rest, ns, t);
      ForStep(ms[0], rest, t);
      ForStep(ms[0], rest + ns, t);
      assert ms == [ms[0]] + rest && ms + ns == [ms[0]] + (rest + ns);
      Regroup([ms[0].1], For(rest, t), For(ns, t));
    }
  }

  lemma ForNone<T>(t: nat)
    ensures For<T>([], t) == []
  {
  }

  lemma Regroup<T>(a: seq<T>, b: seq<T>, c: seq<T>)
    ensures a + (b + c) == a + b + c
  {
  }

  lemma {:induction false} TaggedTickers<T>(u: nat, ms: seq<T>)
    ensures forall i :: 0 <= i < |Tagged(u, ms)| ==> Tagged(u, ms)[i].0 == u
    decreases ms
  {
    if ms != [] {
      TaggedTickers(u, ms[1..]);
    }
  }

  /** One ticker's view after a step. */
  ghost predicate Follows(cfg: RiskConfig, w: TradingSystem.World, e: Option<TradingSystem.Event>, w': TradingSystem.World) {
    match e
    case None => w' == w
    case Some(own) => Owned(w.book.orders) && TradingSystem.Enabled(w, own) && w' == TradingSystem.Next(cfg, w, own)
  }

  lemma QuoteIsSeen(cfg: seq<RiskConfig>, d: Desk, e: DeskEvent, t: nat)
    requires |cfg| == MAX_TICKERS && Complete(d) && t < MAX_TICKERS && e.Quote? && Enabled(d, e)
    ensures Complete(Next(cfg, d, e)) && Follows(cfg[t], Seen(d, t), EventFor(cfg, d, e, t), Seen(Next(cfg, d, e), t))
  {
    hide CheckPreTradeRisk, For, Tagged, Owned, Admissible, TradingSystem.Fits;
    var allowed := CheckPreTradeRisk(cfg[e.ticker], d.positions[e.ticker], e.lossExceeded, e.side, e.quantity) == Allowed;
    var rs := Move(ManagerOf(d, e.ticker), d.client, e.side, e.price, e.quantity, allowed).1;
    ForConcat(d.requests, Tagged(e.ticker, rs), t);
    ForTagged(e.ticker, rs, t);
    TaggedTickers(e.ticker, rs);
  }

  lemma ServedIsSeen(d: Desk, u: nat, r: Request, t: nat)
    requires Complete(d) && u < MAX_TICKERS && t < MAX_TICKERS
    ensures Complete(Served(d, u, r))
    ensures Seen(Served(d, u, r), t) == if u == t then TradingSystem.Served(Seen(d, t), r) else Seen(d, t)
  {
    hide Process, Mine, For, Tagged;
    var s := Process(d.books[u], r);
    var mine := Mine(s.responses, d.client);
    ForConcat(d.responses, Tagged(u, mine), t);
    ForTagged(u, mine, t);
    TaggedTickers(u, mine);
    OwnedAfter(d.books[u], r);
  }

  lemma OwnedAfter(b: Book, r: Request)
    requires Owned(b.orders)
    ensures Owned(Process(b, r).book.orders)
  {
    hide Match, NextPriority;
  }

  lemma ServeIsSeen(cfg: seq<RiskConfig>, d: Desk, e: DeskEvent, t: nat)
    requires |cfg| == MAX_TICKERS && Complete(d) && t < MAX_TICKERS && (e.Serve? || e.Others?) && Enabled(d, e)
    ensures Complete(Next(cfg, d, e)) && Follows(cfg[t], Seen(d, t), EventFor(cfg, d, e, t), Seen(Next(cfg, d, e), t))
  {
    hide Process, Mine, For, Served, TradingSystem.Served, Admissible, TradingSystem.Fits;
    if e.Others? {
      ServedIsSeen(d, e.ticker, e.request, t);
    } else {
      var (u, r) := d.requests[0];
      var rest := d.(requests := d.requests[1..]);
      assert d.requests == [d.requests[0]] + d.requests[1..];
      ForStep(d.requests[0], d.requests[1..], t);
      ServedIsSeen(rest, u, r, t);
      assert u == t ==> For(d.requests, t)[1..] == For(d.requests[1..], t);
    }
  }

  lemma HearIsSeen(cfg: seq<RiskConfig>, d: Desk, e: DeskEvent, t: nat)
    requires |cfg| == MAX_TICKERS && Complete(d) && t < MAX_TICKERS && e.Hear? && Enabled(d, e)
    ensures Complete(Next(cfg, d, e)) && Follows(cfg[t], Seen(d, t), EventFor(cfg, d, e, t), Seen(Next(cfg, d, e), t))
  {
    hide For, React, Owned;
    var (u, r) := d.responses[0];
    assert d.responses == [d.responses[0]] + d.responses[1..];
    ForStep(d.responses[0], d.responses[1..], t);
    ReactKeepsCounter(ManagerOf(d, u), r);
    assert u == t ==> For(d.responses, t)[1..] == For(d.responses[1..], t);
  }

  lemma ReactKeepsCounter(m: Manager, r: Response)
    ensures React(m, r).nextId == m.nextId
  {
  }

  /** Seen from any ticker, every step of the desk is a step of that ticker's own system, or none. */
  lemma StepIsSeen(cfg: seq<RiskConfig>, d: Desk, e: DeskEvent, t: nat)
    requires |cfg| == MAX_TICKERS && Complete(d) && t < MAX_TICKERS && Enabled(d, e)
    ensures Complete(Next(cfg, d, e)) && Follows(cfg[t], Seen(d, t), EventFor(cfg, d, e, t), Seen(Next(cfg, d, e), t))
  {
    hide Next, Follows, Seen, EventFor, Complete, Enabled;
    match e
    case Quote(_, _, _, _, _) => QuoteIsSeen(cfg, d, e, t);
    case Hear => HearIsSeen(cfg, d, e, t);
    case _ => ServeIsSeen(cfg, d, e, t);
  }

  // ----- Every ticker in every run

  /** Each ticker's system is consistent, and its position within its limit with what is outstanding. */
  ghost predicate Sound(cfg: seq<RiskConfig>, d: Desk) {
    && |cfg| == MAX_TICKERS && Complete(d)
    && forall t: nat :: t < MAX_TICKERS ==>
         TradingSystem.Consistent(Seen(d, t)) && TradingLaws.Limited(cfg[t], Seen(d, t))
  }

  lemma NextKeepsSound(cfg: seq<RiskConfig>, d: Desk, e: DeskEvent)
    requires Sound(cfg, d) && Enabled(d, e) && forall t :: 0 <= t < MAX_TICKERS ==> LimitsFit(cfg[t])
    ensures Sound(cfg, Next(cfg, d, e))
  {
    hide Next, Seen, EventFor, TradingSystem.Consistent, TradingLaws.Limited, TradingSystem.Next;
    hide TradingSystem.Enabled, TradingSystem.Fits, Admissible, LimitsFit, Owned;
    StepIsSeen(cfg, d, e, 0);
    forall t: nat | t < MAX_TICKERS
      ensures TradingSystem.Consistent(Seen(Next(cfg, d, e), t)) && TradingLaws.Limited(cfg[t], Seen(Next(cfg, d, e), t))
    {
      StepIsSeen(cfg, d, e, t);
      var own := EventFor(cfg, d, e, t);
      if own.Some? {
        TradingSystem.NextKeeps(cfg[t], Seen(d, t), own.value);
        TradingLaws.NextKeepsLimited(cfg[t], Seen(d, t), own.value);
      }
    }
  }

  lemma {:induction false} RunKeepsSound(cfg: seq<RiskConfig>, d: Desk, es: seq<DeskEvent>)
    requires Sound(cfg, d) && Runs(cfg, d, es) && forall t :: 0 <= t < MAX_TICKERS ==> LimitsFit(cfg[t])
    ensures Sound(cfg, After(cfg, d, es))
    decreases es
  {
    if es != [] {
      hide Sound, Next, Enabled, Complete, LimitsFit;
      NextKeepsSound(cfg, d, es[0]);
      RunKeepsSound(cfg, Next(cfg, d, es[0]), es[1..]);
    }
  }

  lemma StartIsSound(cfg: seq<RiskConfig>, client: nat)
    requires |cfg| == MAX_TICKERS
    ensures Sound(cfg, Start(client))
  {
    hide TradingSystem.Consistent;
    var d := Start(client);
    forall t: nat | t < MAX_TICKERS
      ensures TradingSystem.Consistent(Seen(d, t)) && TradingLaws.Limited(cfg[t], Seen(d, t))
    {
      assert Seen(d, t) == TradingSystem.Start(client, t);
      TradingSystem.StartIsConsistent(client, t);
    }
  }

  /** In every run of a client on all tickers, every ticker's position stays within its limit, with both sides'
      outstanding quantity counted against it, and the client's account of its orders there differs from the
      exchange's by exactly what is under way. */
  lemma EveryTickerStaysWithinLimit(cfg: seq<RiskConfig>, client: nat, es: seq<DeskEvent>, t: nat)
    requires |cfg| == MAX_TICKERS && t < MAX_TICKERS && forall u :: 0 <= u < MAX_TICKERS ==> LimitsFit(cfg[u])
    requires Runs(cfg, Start(client), es)
    ensures var d := After(cfg, Start(client), es);
      && Complete(d) && TradingSystem.Consistent(Seen(d, t))
      && Within(cfg[t], d.positions[t])
      && Within(cfg[t], d.positions[t] + TradingLaws.Outstanding(d.buys[t]))
      && Within(cfg[t], d.positions[t] - TradingLaws.Outstanding(d.sells[t]))
  {
    hide TradingSystem.Consistent, TradingLaws.Outstanding, After, Runs, Start, Sound, LimitsFit;
    StartIsSound(cfg, client);
    RunKeepsSound(cfg, Start(client), es);
    SoundAt(cfg, After(cfg, Start(client), es), t);
  }

  lemma SoundAt(cfg: seq<RiskConfig>, d: Desk, t: nat)
    requires Sound(cfg, d) && t < MAX_TICKERS
    ensures Complete(d) && TradingSystem.Consistent(Seen(d, t))
    ensures d.positions[t] + TradingLaws.Outstanding(d.buys[t]) <= cfg[t].maxPosition
    ensures 0 - cfg[t].maxPosition <= d.positions[t] - TradingLaws.Outstanding(d.sells[t])
  {
    hide TradingSystem.Consistent;
    assert TradingLaws.Limited(cfg[t], Seen(d, t));
  }

  // ----- The order manager of the source on the desk

  /** The client's side of the desk: the order manager and the positions. */
  class Trader {
    const manager: OrderManager
    var positions: seq<int>

    ghost predicate Matches(d: Desk)
      reads this, manager
    {
      && manager.Valid() && manager.client == d.client
      && manager.buys == d.buys && manager.sells == d.sells && manager.nextOrderId == d.nextId && positions == d.positions
    }

    constructor (client: nat, cfg: seq<RiskConfig>)
      requires |cfg| == MAX_TICKERS
      ensures Matches(Start(client)) && manager.cfg == cfg && manager.sent == [] && fresh(manager)
    {
      manager := new OrderManager(client, cfg);
      positions := seq(MAX_TICKERS, _ => 0);
      new;
      assert forall t: nat :: t < MAX_TICKERS ==> manager.State(t) == Manager(UNUSED, UNUSED, 1);
      assert manager.nextOrderId == manager.State(0).nextId;
      forall t | 0 <= t < MAX_TICKERS ensures manager.buys[t] == UNUSED && manager.sells[t] == UNUSED {
        assert manager.State(t) == Manager(UNUSED, UNUSED, 1);
      }
    }

    /** The strategy moves an order: what the manager does and sends is what the desk does and sends. */
    method MoveOrder(t: nat, s: Side, price: int, quantity: nat, lossExceeded: bool, ghost d: Desk)
      requires Matches(d) && Complete(d) && t < MAX_TICKERS
      modifies manager
      ensures var d' := Next(manager.cfg, d, Quote(t, s, price, quantity, lossExceeded));
        && Matches(d')
        && |d.requests| <= |d'.requests| && manager.sent == old(manager.sent) + d'.requests[|d.requests|..]
    {
      hide CheckPreTradeRisk, Move;
      manager.MoveOrder(t, s, price, quantity, positions[t], lossExceeded);
      SameStates(t, d, Quoted(manager.cfg, d, t, s, price, quantity, lossExceeded));
    }

    /** The client hears the next response: addFill for a fill, then onOrderUpdate. */
    method OnResponse(t: nat, r: Response, ghost d: Desk)
      requires Matches(d) && Complete(d) && d.responses != [] && d.responses[0] == (t, r) && t < MAX_TICKERS
      modifies this, manager
      ensures Matches(Next(manager.cfg, d, Hear)) && manager.sent == old(manager.sent)
    {
      hide React;
      if r.kind == Filled && r.side.Some? {
        positions := positions[t := positions[t] + SideValue(r.side.value) * r.executed];
      }
      manager.OnOrderUpdate(t, r);
      ReactKeepsCounter(ManagerOf(d, t), r);
      SameStates(t, d, Heard(d));
    }

    /** A desk that differs from another one in ticker t's slots is matched by the slots. */
    lemma SameStates(t: nat, d: Desk, d': Desk)
      requires manager.Valid() && Complete(d) && t < MAX_TICKERS && |d'.buys| == |d'.sells| == MAX_TICKERS
      requires manager.State(t) == ManagerOf(d', t)
      requires forall u: nat :: u < MAX_TICKERS && u != t ==>
        manager.State(u) == ManagerOf(d', u)
      ensures manager.buys == d'.buys && manager.sells == d'.sells && manager.nextOrderId == d'.nextId
    {
      forall u: nat | u < MAX_TICKERS ensures manager.buys[u] == d'.buys[u] && manager.sells[u] == d'.sells[u] {
        assert manager.State(u) == ManagerOf(d', u);
      }
    }
  }
}

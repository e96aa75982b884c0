/**
 What a client's runs get done: the position is what the exchange has executed, a quote becomes an order at
 the exchange, and a changed quote takes it back.
 */
module TradingProgress {
  import opened Domain
  import opened Messages
  import opened PriceTime
  import opened BookLaws
  import opened ClientAccount
  import opened OrderManager
  import opened TradingSystem
  import TradingLaws
  import TradingDesk
  import PositionKeeper

  // ----- The position is what was executed

  /** The fills among some responses. */
  function FillsOf(rs: seq<Response>): seq<PositionKeeper.Execution> {
    if rs == [] then []
    else
      var r := rs[|rs| - 1];
      FillsOf(rs[..|rs| - 1]) +
      if r.kind == Filled && r.side.Some? then [PositionKeeper.Execution(r.side.value, r.price, r.executed)] else []
  }

  /** The signed sum of their quantities. */
  function NetOf(rs: seq<Response>): int {
    PositionKeeper.PositionOf(FillsOf(rs))
  }

  function Moved(r: Response): int {
    if r.kind == Filled && r.side.Some? then SideValue(r.side.value) * r.executed else 0
  }

  lemma NetSnoc(rs: seq<Response>, r: Response)
    ensures NetOf(rs + [r]) == NetOf(rs) + Moved(r)
  {
    assert (rs + [r])[..|rs|] == rs;
    var prior := FillsOf(rs);
    if r.kind == Filled && r.side.Some? {
      var x := PositionKeeper.Execution(r.side.value, r.price, r.executed);
      assert FillsOf(rs + [r]) == prior + [x] && (prior + [x])[..|prior|] == prior;
    } else {
      assert FillsOf(rs + [r]) == prior;
    }
  }

  lemma {:induction false} NetCons(r: Response, rs: seq<Response>)
    ensures NetOf([r] + rs) == Moved(r) + NetOf(rs)
    decreases rs
  {
    hide FillsOf, PositionKeeper.PositionOf, NetOf, Moved;
    if rs == [] {
      assert [r] + rs == [] + [r];
      NetSnoc([], r);
      NetNone();
    } else {
      var prior, last := rs[..|rs| - 1], rs[|rs| - 1];
      NetCons(r, prior);
      NetSnoc([r] + prior, last);
      NetSnoc(prior, last);
      assert rs == prior + [last] && [r] + rs == [r] + prior + [last];
    }
  }

  lemma NetNone()
    ensures NetOf([]) == 0
  {
  }

  /** Of a stream of responses, the last ones are under way, and the others have taken the position from
      `before` to `now`. */
  ghost predicate Settles(before: int, stream: seq<Response>, now: int, underWay: seq<Response>) {
    && |underWay| <= |stream| && stream[|stream| - |underWay|..] == underWay
    && now == before + NetOf(stream[..|stream| - |underWay|])
  }

  lemma SettlesOne(before: int, r: Response, stream: seq<Response>, now: int, underWay: seq<Response>)
    requires Settles(before + Moved(r), stream, now, underWay)
    ensures Settles(before, [r] + stream, now, underWay)
  {
    hide NetOf, Moved;
    var n := |stream| - |underWay|;
    NetCons(r, stream[..n]);
    assert ([r] + stream)[..n + 1] == [r] + stream[..n] && ([r] + stream)[n + 1..] == stream[n..];
  }

  lemma SettlesNow(position: int, underWay: seq<Response>)
    ensures Settles(position, underWay, position, underWay)
  {
    NetNone();
    assert underWay[..0] == [] && underWay[0..] == underWay;
  }

  /** The responses that the exchange issues to the client in one step. */
  ghost function IssuedBy(w: World, e: Event): seq<Response>
    requires Owned(w.book.orders) && Enabled(w, e)
  {
    match e
    case Serve => Mine(Process(w.book, w.requests[0]).responses, w.client)
    case Others(r) => Mine(Process(w.book, r).responses, w.client)
    case _ => []
  }

  ghost function Issued(cfg: RiskConfig, w: World, es: seq<Event>): seq<Response>
    requires Runs(cfg, w, es)
    decreases es
  {
    if es == [] then [] else IssuedBy(w, es[0]) + Issued(cfg, Next(cfg, w, es[0]), es[1..])
  }

  lemma StepSettles(cfg: RiskConfig, w: World, e: Event)
    requires Owned(w.book.orders) && Enabled(w, e)
    ensures var w' := Next(cfg, w, e);
      && (e.Hear? ==> w'.responses == w.responses[1..] && w'.position == w.position + Moved(w.responses[0]))
      && (!e.Hear? ==> w'.responses == w.responses + IssuedBy(w, e) && w'.position == w.position)
  {
    hide Process, Mine, React, CheckPreTradeRisk, Move, Fits, Admissible;
  }

  lemma StepSettlesOn(cfg: RiskConfig, w: World, e: Event, later: seq<Response>, now: int, underWay: seq<Response>)
    requires Owned(w.book.orders) && Enabled(w, e)
    requires Settles(Next(cfg, w, e).position, Next(cfg, w, e).responses + later, now, underWay)
    ensures Settles(w.position, w.responses + (IssuedBy(w, e) + later), now, underWay)
  {
    StepSettles(cfg, w, e);
    hide Settles, Next, Moved, Process, Mine, Fits, Admissible;
    if e.Hear? {
      var r, rest := w.responses[0], w.responses[1..];
      SettlesOne(w.position, r, rest + later, now, underWay);
      assert [r] + (rest + later) == w.responses + ([] + later);
    } else {
      Regroup(w.responses, IssuedBy(w, e), later);
    }
  }

  /** In every run the position has moved by the signed sum of what the exchange has executed for the client,
      less what is still under way: the responses heard are the stream issued, in order, up to those under
      way. */
  lemma {:induction false} PositionIsWhatWasExecuted(cfg: RiskConfig, w: World, es: seq<Event>)
    requires Runs(cfg, w, es)
    ensures var w' := After(cfg, w, es);
      Settles(w.position, w.responses + Issued(cfg, w, es), w'.position, w'.responses)
    decreases es
  {
    hide Settles, Next, Enabled, IssuedBy;
    if es == [] {
      SettlesNow(w.position, w.responses);
      assert w.responses + [] == w.responses;
    } else {
      PositionIsWhatWasExecuted(cfg, Next(cfg, w, es[0]), es[1..]);
      StepSettlesOn(cfg, w, es[0], Issued(cfg, Next(cfg, w, es[0]), es[1..]),
                    After(cfg, w, es).position, After(cfg, w, es).responses);
    }
  }

  // ----- The same for every ticker of the desk

  /** The responses that the exchange issues to the client about ticker `t` in a run of the desk. */
  ghost function IssuedAt(cfg: seq<RiskConfig>, d: TradingDesk.Desk, es: seq<TradingDesk.DeskEvent>, t: nat): seq<Response>
    requires |cfg| == MAX_TICKERS && t < MAX_TICKERS && TradingDesk.Runs(cfg, d, es)
    decreases es
  {
    if es == [] then []
    else
      var r := TradingDesk.Arriving(d, es[0]);
      (if r.Some? && r.value.0 == t then Mine(Process(d.books[t], r.value.1).responses, d.client) else []) +
      IssuedAt(cfg, TradingDesk.Next(cfg, d, es[0]), es[1..], t)
  }

  lemma DeskStepEnabled(cfg: seq<RiskConfig>, d: TradingDesk.Desk, e: TradingDesk.DeskEvent, t: nat)
    requires |cfg| == MAX_TICKERS && t < MAX_TICKERS && TradingDesk.Complete(d) && TradingDesk.Enabled(d, e)
    ensures var own := TradingDesk.EventFor(cfg, d, e, t);
      own.Some? ==> Owned(d.books[t].orders) && Enabled(TradingDesk.Seen(d, t), own.value)
  {
    hide Process, Mine, Fits, Admissible, Owned, Enabled, Next, TradingDesk.Next, TradingDesk.EventFor;
    TradingDesk.StepIsSeen(cfg, d, e, t);
  }

  /** What a step of the desk brings to a ticker's book is what the ticker's own step brings. */
  lemma DeskStepArrives(cfg: seq<RiskConfig>, d: TradingDesk.Desk, e: TradingDesk.DeskEvent, t: nat)
    requires |cfg| == MAX_TICKERS && t < MAX_TICKERS && TradingDesk.Complete(d) && TradingDesk.Enabled(d, e)
    ensures var r := TradingDesk.Arriving(d, e);
      var own := TradingDesk.EventFor(cfg, d, e, t);
      if r.Some? && r.value.0 == t then
        if e.Serve? then own == Some(Serve) && TradingDesk.For(d.requests, t) != [] && TradingDesk.For(d.requests, t)[0] == r.value.1
        else own == Some(Others(r.value.1))
      else own.None? || (!own.value.Serve? && !own.value.Others?)
  {
    hide Fits, Admissible, Owned, TradingDesk.Quoted, TradingDesk.For;
    if e.Serve? {
      assert d.requests == [d.requests[0]] + d.requests[1..];
      TradingDesk.ForStep(d.requests[0], d.requests[1..], t);
    }
  }

  lemma DeskStepIssues(cfg: seq<RiskConfig>, d: TradingDesk.Desk, e: TradingDesk.DeskEvent, t: nat)
    requires |cfg| == MAX_TICKERS && t < MAX_TICKERS && TradingDesk.Complete(d) && TradingDesk.Enabled(d, e)
    ensures var r := TradingDesk.Arriving(d, e);
      var own := TradingDesk.EventFor(cfg, d, e, t);
      var w := TradingDesk.Seen(d, t);
      && (own.Some? ==> Owned(w.book.orders) && Enabled(w, own.value))
      && (if r.Some? && r.value.0 == t then Mine(Process(d.books[t], r.value.1).responses, d.client) else []) ==
         (if own.Some? then IssuedBy(w, own.value) else [])
  {
    hide Process, Mine, Fits, Admissible, Owned, Enabled, TradingDesk.EventFor, TradingDesk.Arriving, TradingDesk.For;
    DeskStepEnabled(cfg, d, e, t);
    DeskStepArrives(cfg, d, e, t);
  }

  lemma {:induction false} EveryPositionIsWhatWasExecuted(cfg: seq<RiskConfig>, d: TradingDesk.Desk, es: seq<TradingDesk.DeskEvent>, t: nat)
    requires |cfg| == MAX_TICKERS && t < MAX_TICKERS && TradingDesk.Complete(d) && TradingDesk.Runs(cfg, d, es)
    ensures var d' := TradingDesk.After(cfg, d, es);
      && TradingDesk.Complete(d')
      && Settles(d.positions[t], TradingDesk.For(d.responses, t) + IssuedAt(cfg, d, es, t),
                 d'.positions[t], TradingDesk.For(d'.responses, t))
    decreases es
  {
    hide Settles, TradingDesk.For, Process, Mine;
    if es == [] {
      SettlesNow(d.positions[t], TradingDesk.For(d.responses, t));
      assert TradingDesk.For(d.responses, t) + [] == TradingDesk.For(d.responses, t);
    } else {
      DeskSettlesOn(cfg, d, es, t);
    }
  }

  lemma {:induction false} DeskSettlesOn(cfg: seq<RiskConfig>, d: TradingDesk.Desk, es: seq<TradingDesk.DeskEvent>, t: nat)
    requires |cfg| == MAX_TICKERS && t < MAX_TICKERS && TradingDesk.Complete(d) && TradingDesk.Runs(cfg, d, es) && es != []
    ensures var d' := TradingDesk.After(cfg, d, es);
      && TradingDesk.Complete(d')
      && Settles(d.positions[t], TradingDesk.For(d.responses, t) + IssuedAt(cfg, d, es, t),
                 d'.positions[t], TradingDesk.For(d'.responses, t))
    decreases es, 0
  {
    hide Settles, TradingDesk.For, Process, Mine, TradingDesk.Next, TradingDesk.EventFor, IssuedBy, Next, Enabled;
    var e, d1 := es[0], TradingDesk.Next(cfg, d, es[0]);
    TradingDesk.StepIsSeen(cfg, d, e, t);
    DeskStepIssues(cfg, d, e, t);
    EveryPositionIsWhatWasExecuted(cfg, d1, es[1..], t);
    var own := TradingDesk.EventFor(cfg, d, e, t);
    var later := IssuedAt(cfg, d1, es[1..], t);
    var d' := TradingDesk.After(cfg, d, es);
    if own.Some? {
      StepSettlesOn(cfg[t], TradingDesk.Seen(d, t), own.value, later, d'.positions[t], TradingDesk.For(d'.responses, t));
    } else {
      assert [] + later == later;
    }
  }

  // ----- A quote becomes an order, and a changed quote takes it back

  lemma RunsFirst(cfg: RiskConfig, w: World, e: Event, es: seq<Event>)
    requires Owned(w.book.orders) && Enabled(w, e) && Runs(cfg, Next(cfg, w, e), es)
    ensures Runs(cfg, w, [e] + es) && After(cfg, w, [e] + es) == After(cfg, Next(cfg, w, e), es)
  {
    hide Next, Enabled;
    assert ([e] + es)[1..] == es;
  }

  lemma RunsNone(cfg: RiskConfig, w: World)
    ensures Runs(cfg, w, []) && After(cfg, w, []) == w
  {
  }

  lemma RunsThree(cfg: RiskConfig, w: World, a: Event, b: Event, c: Event)
    requires Owned(w.book.orders) && Enabled(w, a)
    requires var w1 := Next(cfg, w, a); Owned(w1.book.orders) && Enabled(w1, b)
    requires var w2 := Next(cfg, Next(cfg, w, a), b); Owned(w2.book.orders) && Enabled(w2, c)
    ensures Runs(cfg, w, [a, b, c])
    ensures After(cfg, w, [a, b, c]) == Next(cfg, Next(cfg, Next(cfg, w, a), b), c)
  {
    hide Next, Enabled, Runs, After, Owned;
    var w1 := Next(cfg, w, a);
    var w2 := Next(cfg, w1, b);
    RunsNone(cfg, Next(cfg, w2, c));
    RunsFirst(cfg, w2, c, []);
    RunsFirst(cfg, w1, b, [c] + []);
    RunsFirst(cfg, w, a, [b] + ([c] + []));
    assert [a] + ([b] + ([c] + [])) == [a, b, c];
  }

  /** A quote that sends one request into an empty channel. */
  lemma QuoteSends(cfg: RiskConfig, w: World, s: Side, price: int, quantity: nat, m: Manager, q: Request)
    requires w.requests == []
    requires Move(w.manager, w.client, s, price, quantity,
                  CheckPreTradeRisk(cfg, w.position, false, s, quantity) == Allowed) == (m, [q])
    ensures Quoted(cfg, w, s, price, quantity, false) == w.(manager := m, requests := [q])
  {
    hide CheckPreTradeRisk, Move;
    assert w.requests + [q] == [q];
  }

  /** The exchange serves the only request, and the client hears the first of its responses. */
  lemma RoundTrip(cfg: RiskConfig, w: World, w1: World, quote: Event, q: Request)
    requires Consistent(w) && Enabled(w, quote) && Owned(w.book.orders) && w1 == Next(cfg, w, quote)
    requires w1.requests == [q] && w1.responses == [] && Fits(w1.book, q)
    requires Owned(w1.book.orders) && Mine(Process(w1.book, q).responses, w1.client) != []
    ensures var es := [quote, Serve, Hear];
      var rs := Mine(Process(w1.book, q).responses, w1.client);
      && Runs(cfg, w, es)
      && After(cfg, w, es).manager == React(w1.manager, rs[0])
      && After(cfg, w, es).requests == [] && After(cfg, w, es).responses == rs[1..]
      && (rs[0].kind != Filled ==> After(cfg, w, es).position == w1.position)
  {
    hide Consistent, Process, Mine, React, Fits, Admissible, CheckPreTradeRisk, Quoted;
    NextKeeps(cfg, w, quote);
    NextKeeps(cfg, w1, Serve);
    var w2 := Next(cfg, w1, Serve);
    assert w1.requests[1..] == [] && [] + Mine(Process(w1.book, q).responses, w1.client) == w2.responses;
    NextKeeps(cfg, w2, Hear);
    RunsThree(cfg, w, quote, Serve, Hear);
  }

  /** The exchange's first response to a client's own new order is its acknowledgement. */
  lemma FirstIsAcknowledgement(b: Book, r: Request, c: nat)
    requires Owned(b.orders) && r.NewOrder? && r.client == c
    ensures var mine := Mine(Process(b, r).responses, c);
      && mine != [] && mine[0].kind == Accepted && mine[0].side == Some(r.side) && About(mine[0]) == Owner(c, r.orderId)
  {
    hide Match, NextPriority;
  }

  /** From an idle slot with both channels empty, an acceptable quote and one round trip end with that order
      acknowledged: the slot is live with the price and quantity quoted and the next id. */
  lemma QuoteIsAcknowledged(cfg: RiskConfig, w: World, s: Side, price: int, quantity: nat)
    requires Consistent(w) && LimitsFit(cfg) && Within(cfg, w.position) && w.requests == [] && w.responses == []
    requires Idle(SlotOf(w.manager, s)) && Quotable(cfg, w.position, false, s, price, quantity)
    requires Fits(w.book, NewOrder(w.client, w.manager.nextId, s, price, quantity))
    ensures var es := [Quote(s, price, quantity, false), Serve, Hear];
      && Runs(cfg, w, es)
      && SlotOf(After(cfg, w, es).manager, s) == Slot(Live, w.manager.nextId, price, quantity)
      && After(cfg, w, es).requests == [] && After(cfg, w, es).position == w.position
  {
    WellFormedIsOwned(w.book);
    hide CheckPreTradeRisk, Move, Process, Mine, Fits, Consistent, React, WellFormed, Runs, After;
    QuoteIsActedOnIff(cfg, w.manager, w.client, s, price, quantity, w.position, false);
    var q := NewOrder(w.client, w.manager.nextId, s, price, quantity);
    var m := Move(w.manager, w.client, s, price, quantity, CheckPreTradeRisk(cfg, w.position, false, s, quantity) == Allowed).0;
    QuoteSends(cfg, w, s, price, quantity, m, q);
    FirstIsAcknowledgement(w.book, q, w.client);
    RoundTrip(cfg, w, w.(manager := m, requests := [q]), Quote(s, price, quantity, false), q);
    ResponseMovesSlot(m, Mine(Process(w.book, q).responses, w.client)[0]);
  }

  /** The exchange's one response to the cancel of a resting order is its cancellation. */
  lemma CancelIsAnswered(b: Book, c: nat, orderId: nat, id: nat)
    requires WellFormed(b) && OwnedBy(b.orders, Owner(c, orderId), id)
    ensures Mine(Process(b, CancelOrder(c, orderId)).responses, c) == Process(b, CancelOrder(c, orderId)).responses
    ensures var rs := Process(b, CancelOrder(c, orderId)).responses;
      |rs| == 1 && rs[0].kind == Cancelled && rs[0].side == Some(b.orders[id].side)
  {
    hide Uncrossed, PrioritiesAscend, SlotsApart;
    var rs := Process(b, CancelOrder(c, orderId)).responses;
    TradingLaws.MineOne(rs[0], c);
  }

  /** With both channels empty, a live slot's order rests at the exchange with the slot's quantity. */
  lemma LiveOrderRests(w: World, s: Side) returns (id: nat)
    requires Consistent(w) && w.requests == [] && w.responses == []
    requires SlotOf(w.manager, s).state == Live && SlotOf(w.manager, s).quantity > 0
    ensures OwnedBy(w.book.orders, Owner(w.client, SlotOf(w.manager, s).orderId), id)
    ensures w.book.orders[id].side == s && w.book.orders[id].quantity == SlotOf(w.manager, s).quantity
  {
    hide WellFormed, Announced, Withdrawing, LedgerOf;
    TradingLaws.QuietSystemAgrees(w);
    var k := Owner(w.client, SlotOf(w.manager, s).orderId);
    assert k in Booked(w.manager, w.client) && Booked(w.manager, w.client)[k] == Open(s, SlotOf(w.manager, s).quantity);
    assert k in LedgerOf(w.book.orders);
    id :| OwnedBy(w.book.orders, k, id);
  }

  /** From a live slot with both channels empty, a quote at another price or quantity and one round trip end
      with the order cancelled: the slot is dead and nothing of it rests. */
  lemma ChangedQuoteCancels(cfg: RiskConfig, w: World, s: Side, price: int, quantity: nat)
    requires Consistent(w) && LimitsFit(cfg) && Within(cfg, w.position) && w.requests == [] && w.responses == []
    requires var slot := SlotOf(w.manager, s);
      slot.state == Live && slot.quantity > 0 && (slot.price != price || slot.quantity != quantity)
    requires Fits(w.book, CancelOrder(w.client, SlotOf(w.manager, s).orderId))
    ensures var es := [Quote(s, price, quantity, false), Serve, Hear];
      && Runs(cfg, w, es)
      && SlotOf(After(cfg, w, es).manager, s).state == Dead
      && After(cfg, w, es).requests == [] && After(cfg, w, es).responses == []
  {
    WellFormedIsOwned(w.book);
    var id := LiveOrderRests(w, s);
    var q := CancelOrder(w.client, SlotOf(w.manager, s).orderId);
    CancelIsAnswered(w.book, w.client, q.orderId, id);
    hide CheckPreTradeRisk, Move, Process, Mine, Fits, Consistent, React, WellFormed, Runs, After;
    QuoteIsActedOnIff(cfg, w.manager, w.client, s, price, quantity, w.position, false);
    var m := Move(w.manager, w.client, s, price, quantity, CheckPreTradeRisk(cfg, w.position, false, s, quantity) == Allowed).0;
    QuoteSends(cfg, w, s, price, quantity, m, q);
    RoundTrip(cfg, w, w.(manager := m, requests := [q]), Quote(s, price, quantity, false), q);
    ResponseMovesSlot(m, Process(w.book, q).responses[0]);
  }
}

/**
 The market as public data: one book per ticker, the fold of an update stream, and the snapshot
 publication that rebuilds it.
 */
module MarketData {
  import opened Domain
  import opened Messages

  /** One public book per ticker. */
  type Market = m: seq<Orders> | |m| == MAX_TICKERS witness [map[], map[], map[], map[], map[], map[], map[], map[]]

  const EMPTY: Market := [map[], map[], map[], map[], map[], map[], map[], map[]]

  predicate Trades(u: Update) {
    u.Add? || u.Modify? || u.Cancel?
  }

  predicate LegalAt(m: Market, u: Update) {
    (Trades(u) || u.Clear? ==> u.ticker < MAX_TICKERS && Legal(m[u.ticker], u))
    && (Trades(u) ==> u.id < MAX_ORDER_IDS)
  }

  function ApplyAt(m: Market, u: Update): Market {
    if (Trades(u) || u.Clear?) && u.ticker < MAX_TICKERS then m[u.ticker := Apply(m[u.ticker], u)] else m
  }

  function Fold(m: Market, us: seq<Update>): Market
    decreases us
  {
    if us == [] then m else Fold(ApplyAt(m, us[0]), us[1..])
  }

  /** Every update of the stream is legal where it is applied. */
  predicate LegalRun(m: Market, us: seq<Update>)
    decreases us
  {
    us != [] ==> LegalAt(m, us[0]) && LegalRun(ApplyAt(m, us[0]), us[1..])
  }

  lemma {:induction false} FoldConcat(m: Market, us: seq<Update>, vs: seq<Update>)
    ensures Fold(m, us + vs) == Fold(Fold(m, us), vs)
    ensures LegalRun(m, us + vs) <==> LegalRun(m, us) && LegalRun(Fold(m, us), vs)
    decreases us
  {
    if us == [] {
      assert us + vs == vs;
    } else {
      assert (us + vs)[1..] == us[1..] + vs;
      FoldConcat(ApplyAt(m, us[0]), us[1..], vs);
    }
  }

  // ----- One ticker of a stream

  predicate IsFor(u: Update, t: nat) {
    (Trades(u) || u.Clear?) && u.ticker == t
  }

  /** The updates of a stream that one ticker's book is given. */
  function ForTicker(us: seq<Update>, t: nat): seq<Update> {
    if us == [] then []
    else if IsFor(us[0], t) then [us[0]] + ForTicker(us[1..], t)
    else ForTicker(us[1..], t)
  }

  /** A legal stream replays each ticker's book by itself. */
  lemma {:induction false} TickerReplays(m: Market, us: seq<Update>, t: nat)
    requires t < MAX_TICKERS && LegalRun(m, us)
    ensures Replays(m[t], ForTicker(us, t), Fold(m, us)[t])
    ensures forall i :: 0 <= i < |ForTicker(us, t)| && Trades(ForTicker(us, t)[i]) ==> ForTicker(us, t)[i].id < MAX_ORDER_IDS
    decreases us
  {
    if us != [] {
      hide Legal, Apply;
      TickerReplays(ApplyAt(m, us[0]), us[1..], t);
      if IsFor(us[0], t) {
        assert ForTicker(us, t)[1..] == ForTicker(us[1..], t);
      }
    }
  }

  // ----- Public books

  /** What a legal stream builds: orders named by their market id, each price in its own slot. */
  ghost predicate PublicBook(o: Orders) {
    && (forall id :: id in o ==> id < MAX_ORDER_IDS && o[id].owner == Public(id) && o[id].quantity > 0)
    && OwnSlots(o)
    && Roomy(o)
  }

  /** Orders that share an index slot share their level. */
  ghost predicate OwnSlots(o: Orders) {
    forall i, j :: i in o && j in o && PriceToIndex(o[i].price) == PriceToIndex(o[j].price) ==>
      o[i].price == o[j].price && o[i].side == o[j].side
  }

  lemma LegalKeepsOwnSlots(o: Orders, u: Update)
    requires OwnSlots(o) && Legal(o, u)
    ensures OwnSlots(Apply(o, u))
  {
    hide Roomy, PriceToIndex;
  }

  ghost predicate PublicMarket(m: Market) {
    forall t :: 0 <= t < MAX_TICKERS ==> PublicBook(m[t])
  }

  lemma LegalKeepsPublicBook(o: Orders, u: Update)
    requires PublicBook(o) && Legal(o, u) && (Trades(u) ==> u.id < MAX_ORDER_IDS)
    ensures PublicBook(Apply(o, u))
  {
    hide Roomy, OwnSlots;
    LegalKeepsOwnSlots(o, u);
    if !u.Add? {
      RoomyShrinks(o, Apply(o, u));
    }
  }

  lemma LegalKeepsPublic(m: Market, u: Update)
    requires PublicMarket(m) && LegalAt(m, u)
    ensures PublicMarket(ApplyAt(m, u))
  {
    hide PublicBook, Legal, Apply;
    if Trades(u) || u.Clear? {
      LegalKeepsPublicBook(m[u.ticker], u);
    }
  }

  lemma {:induction false} LegalRunKeepsPublic(m: Market, us: seq<Update>)
    requires PublicMarket(m) && LegalRun(m, us)
    ensures PublicMarket(Fold(m, us))
    decreases us
  {
    if us != [] {
      LegalKeepsPublic(m, us[0]);
      LegalRunKeepsPublic(ApplyAt(m, us[0]), us[1..]);
    }
  }

  // ----- Snapshots

  function AddOf(t: nat, id: nat, r: Resting): Update {
    Add(t, id, r.side, r.price, r.quantity, r.priority)
  }

  /** The orders of ticker `t` with ids below `n`, by ascending id. */
  function AddsBelow(o: Orders, t: nat, n: nat): seq<Update> {
    if n == 0 then []
    else AddsBelow(o, t, n - 1) + (if n - 1 in o then [AddOf(t, n - 1, o[n - 1])] else [])
  }

  function TickerPart(m: Market, t: nat): seq<Update>
    requires t < MAX_TICKERS
  {
    [Clear(t)] + AddsBelow(m[t], t, MAX_ORDER_IDS)
  }

  /** The parts of the first `n` tickers. */
  function Body(m: Market, n: nat): seq<Update>
    requires n <= MAX_TICKERS
  {
    if n == 0 then [] else Body(m, n - 1) + TickerPart(m, n - 1)
  }

  /** A snapshot of market `m` after update number `last`; messages are numbered by position. */
  function Publication(m: Market, last: nat): seq<Update> {
    [SnapshotStart(last)] + Body(m, MAX_TICKERS) + [SnapshotEnd(last)]
  }

  function OrdersBelow(o: Orders, n: nat): Orders {
    map id | id in o && id < n :: o[id]
  }

  lemma NextAddFits(o: Orders, t: nat, n: nat)
    requires PublicBook(o) && n in o
    ensures Legal(OrdersBelow(o, n), AddOf(t, n, o[n]))
    ensures Apply(OrdersBelow(o, n), AddOf(t, n, o[n])) == OrdersBelow(o, n + 1) && n < MAX_ORDER_IDS
  {
    hide Roomy;
    RoomyShrinks(o, OrdersBelow(o, n + 1));
    assert OrdersBelow(o, n)[n := o[n]] == OrdersBelow(o, n + 1);
  }

  lemma OrdersBelowStep(o: Orders, n: nat)
    ensures OrdersBelow(o, 0) == map[] && (n > 0 && n - 1 !in o ==> OrdersBelow(o, n) == OrdersBelow(o, n - 1))
  {
  }

  lemma FoldNone(m: Market)
    ensures Fold(m, []) == m && LegalRun(m, [])
  {
  }

  lemma FoldOne(m: Market, u: Update)
    ensures Fold(m, [u]) == ApplyAt(m, u) && (LegalRun(m, [u]) <==> LegalAt(m, u))
  {
    assert [u][1..] == [];
  }

  /** Adding orders by ascending id rebuilds the book, and each one queues behind the earlier ones of
      its price. */
  lemma {:induction false} AddsRebuild(m: Market, o: Orders, t: nat, n: nat)
    requires t < MAX_TICKERS && PublicBook(o) && m[t] == map[]
    ensures LegalRun(m, AddsBelow(o, t, n)) && Fold(m, AddsBelow(o, t, n)) == m[t := OrdersBelow(o, n)]
  {
    hide Legal, Apply, OrdersBelow, Fold, LegalRun, PublicBook;
    OrdersBelowStep(o, n);
    if n > 0 {
      AddsRebuild(m, o, t, n - 1);
      var done := AddsBelow(o, t, n - 1);
      var m' := m[t := OrdersBelow(o, n - 1)];
      if n - 1 in o {
        var u := AddOf(t, n - 1, o[n - 1]);
        NextAddFits(o, t, n - 1);
        FoldConcat(m, done, [u]);
        FoldOne(m', u);
        assert m'[t := OrdersBelow(o, n)] == m[t := OrdersBelow(o, n)];
      } else {
        assert done + [] == done;
      }
    } else {
      FoldNone(m);
      assert m[t := map[]] == m;
    }
  }

  /** A ticker's part replaces that ticker's book, whatever it was. */
  lemma TickerPartRebuilds(d: Market, m: Market, t: nat)
    requires t < MAX_TICKERS && PublicBook(m[t])
    ensures LegalRun(d, TickerPart(m, t)) && Fold(d, TickerPart(m, t)) == d[t := m[t]]
  {
    var us := AddsBelow(m[t], t, MAX_ORDER_IDS);
    var d' := d[t := map[]];
    AddsRebuild(d', m[t], t, MAX_ORDER_IDS);
    assert OrdersBelow(m[t], MAX_ORDER_IDS) == m[t];
    assert d'[t := m[t]] == d[t := m[t]];
    assert ([Clear(t)] + us)[1..] == us;
  }

  lemma {:induction false} BodyRebuilds(d: Market, m: Market, n: nat)
    requires n <= MAX_TICKERS && PublicMarket(m)
    ensures LegalRun(d, Body(m, n)) && Fold(d, Body(m, n)) == m[..n] + d[n..]
  {
    hide Fold, LegalRun, TickerPart, PublicBook;
    if n > 0 {
      BodyRebuilds(d, m, n - 1);
      var d' := m[..n - 1] + d[n - 1..];
      TickerPartRebuilds(d', m, n - 1);
      FoldConcat(d, Body(m, n - 1), TickerPart(m, n - 1));
      assert d'[n - 1 := m[n - 1]] == m[..n] + d[n..];
    } else {
      FoldNone(d);
      assert m[..0] + d[0..] == d;
    }
  }

  /** Replaying the body of a publication into any market at all yields the published market. */
  lemma SnapshotRebuilds(d: Market, m: Market)
    requires PublicMarket(m)
    ensures LegalRun(d, Body(m, MAX_TICKERS)) && Fold(d, Body(m, MAX_TICKERS)) == m
  {
    BodyRebuilds(d, m, MAX_TICKERS);
    assert m[..MAX_TICKERS] + d[MAX_TICKERS..] == m;
  }
}

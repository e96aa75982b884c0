/**
 The exchange's snapshot synthesizer: it folds the numbered update stream and publishes the result.
 */
module SnapshotSynthesizer {
  import opened Domain
  import opened Messages
  import opened MarketData

  /** A message on a multicast stream. */
  datatype Numbered = Numbered(number: nat, update: Update)

  function Number(us: seq<Update>): seq<Numbered> {
    seq(|us|, i requires 0 <= i < |us| => Numbered(i, us[i]))
  }

  lemma NumberNext(us: seq<Update>, u: Update)
    ensures Number(us + [u]) == Number(us) + [Numbered(|us|, u)]
  {
  }

  /** The ASSERTs of addToSnapshot on the order that an update names. */
  predicate Passes(o: Orders, u: Update) {
    match u
    case Add(_, id, _, _, _, _) => id !in o
    case Modify(_, id, side, _, _, _) => id in o && o[id].side == side
    case Cancel(_, id, side, _, _, _) => id in o && o[id].side == side
    case _ => true
  }

  /** What addToSnapshot makes of a book: a MODIFY takes the price from the message too, and markers
      such as CLEAR are ignored. */
  function Synthesize(o: Orders, u: Update): Orders {
    match u
    case Add(_, id, side, price, quantity, priority) =>
      o[id := Resting(Public(id), side, price, quantity, priority)]
    case Modify(_, id, _, price, quantity, _) =>
      if id in o then o[id := o[id].(quantity := quantity, price := price)] else o
    case Cancel(_, id, _, _, _, _) => o - {id}
    case _ => o
  }

  /** The orders of all tickers, which share one memory pool. */
  function Total(m: Market): nat {
    |m[0]| + |m[1]| + |m[2]| + |m[3]| + |m[4]| + |m[5]| + |m[6]| + |m[7]|
  }

  lemma TotalUpdated(m: Market, t: nat, o: Orders)
    requires t < MAX_TICKERS
    ensures Total(m[t := o]) == Total(m) - |m[t]| + |o|
  {
  }

  class Synthesizer {
    var market: Market
    var last: nat
    var live: nat  // blocks in use in the memory pool

    ghost predicate Valid()
      reads this
    {
      live == Total(market) < MAX_ORDER_IDS
    }

    constructor ()
      ensures Valid() && market == EMPTY && last == 0
    {
      market, last, live := EMPTY, 0, 0;
    }

    /** addToSnapshot; `ok` is false when an ASSERT fires, that of the shared memory pool included, which
        ends the process. */
    method AddToSnapshot(message: Numbered) returns (ok: bool)
      requires Valid()
      requires Trades(message.update) ==> message.update.ticker < MAX_TICKERS && message.update.id < MAX_ORDER_IDS
      modifies this
      ensures ok <==>
        && message.number == old(last) + 1
        && (Trades(message.update) ==> Passes(old(market)[message.update.ticker], message.update))
        && (message.update.Add? ==> Total(old(market)) + 1 < MAX_ORDER_IDS)
      ensures ok ==> Valid() && last == old(last) + 1
      ensures ok && Trades(message.update) ==>
        var t := message.update.ticker; market == old(market)[t := Synthesize(old(market)[t], message.update)]
      ensures ok && Trades(message.update) && LegalAt(old(market), message.update) ==>
        market == ApplyAt(old(market), message.update)
      ensures !Trades(message.update) ==> market == old(market)
    {
      hide Total, Roomy;
      var u := message.update;
      ok := true;
      match u {
        case Add(t, id, side, price, quantity, priority) =>
          ok := id !in market[t] && live + 1 < MAX_ORDER_IDS;
          if ok {
            var orders: Orders := market[t];
            var more: Orders := orders[id := Resting(Public(id), side, price, quantity, priority)];
            TotalUpdated(market, t, more);
            market, live := market[t := more], live + 1;
          }
        case Modify(t, id, side, price, quantity, _) =>
          ok := id in market[t] && market[t][id].side == side;
          if ok {
            var orders: Orders := market[t];
            var same: Orders := orders[id := orders[id].(quantity := quantity, price := price)];
            assert same.Keys == orders.Keys && |same| == |same.Keys| && |orders| == |orders.Keys|;
            TotalUpdated(market, t, same);
            market := market[t := same];
          }
        case Cancel(t, id, side, _, _, _) =>
          ok := id in market[t] && market[t][id].side == side;
          if ok {
            var orders: Orders := market[t];
            var less: Orders := orders - {id};
            assert less.Keys == orders.Keys - {id} && |less| == |less.Keys| && |orders| == |orders.Keys|;
            TotalUpdated(market, t, less);
            market, live := market[t := less], live - 1;
          }
        case _ =>
      }
      ok := ok && message.number == last + 1;
      if ok {
        last := message.number;
      }
    }

    /** publishSnapshot. */
    method PublishSnapshot() returns (sent: seq<Numbered>)
      ensures sent == Number(Publication(market, last))
    {
      ghost var us := [SnapshotStart(last)];
      var size := 0;
      sent := [Numbered(size, SnapshotStart(last))];
      size := size + 1;
      for t := 0 to MAX_TICKERS
        invariant us == [SnapshotStart(last)] + Body(market, t)
        invariant sent == Number(us) && size == |us|
      {
        ghost var before := us;
        NumberNext(us, Clear(t));
        us := us + [Clear(t)];
        sent := sent + [Numbered(size, Clear(t))];
        size := size + 1;
        for id := 0 to MAX_ORDER_IDS
          invariant us == before + ([Clear(t)] + AddsBelow(market[t], t, id))
          invariant sent == Number(us) && size == |us|
        {
          if id in market[t] {
            var u := AddOf(t, id, market[t][id]);
            NumberNext(us, u);
            us := us + [u];
            sent := sent + [Numbered(size, u)];
            size := size + 1;
          }
        }
      }
      NumberNext(us, SnapshotEnd(last));
      sent := sent + [Numbered(size, SnapshotEnd(last))];
    }
  }
}

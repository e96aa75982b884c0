/**
 The messages of the exchange: responses to clients and public market updates.
 */
module Messages {
  import opened Domain

  datatype ResponseKind = Accepted | Cancelled | Filled | CancelRejected

  /** `side` is None where the source writes Side::INVALID. */
  datatype Response = Response(
    kind: ResponseKind, client: nat, ticker: nat, clientOrderId: nat, marketOrderId: nat,
    side: Option<Side>, price: int, executed: nat, leaves: nat)

  datatype Update =
    | Add(ticker: nat, id: nat, side: Side, price: int, quantity: nat, priority: nat)
    | Modify(ticker: nat, id: nat, side: Side, price: int, quantity: nat, priority: nat)
    | Cancel(ticker: nat, id: nat, side: Side, price: int, quantity: nat, priority: nat)
    | Clear(ticker: nat)
    | SnapshotStart(last: nat)
    | SnapshotEnd(last: nat)
    | Trade(ticker: nat)

  datatype Request =
    | NewOrder(client: nat, orderId: nat, side: Side, price: int, quantity: nat)
    | CancelOrder(client: nat, orderId: nat)

  // ----- What a public update does to a book, and when it is safe to apply

  /** Update `u` can be applied to a book of public orders: no ASSERT of a receiver fires, an added
      order queues behind every order of its price level, its index slot is its own, and the memory pools
      have room for it. */
  predicate Legal(o: Orders, u: Update) {
    match u
    case Add(_, id, side, price, quantity, priority) =>
      && id !in o
      && quantity > 0
      && Roomy(o[id := Resting(Public(id), side, price, quantity, priority)])
      && forall k :: k in o && PriceToIndex(o[k].price) == PriceToIndex(price) ==>
           o[k].price == price && o[k].side == side && k < id
    case Modify(_, id, side, price, quantity, priority) =>
      id in o && o[id].side == side && o[id].price == price && o[id].priority == priority && quantity > 0
    case Cancel(_, id, side, price, _, _) =>
      id in o && o[id].side == side && o[id].price == price
    case _ => true
  }

  function Apply(o: Orders, u: Update): Orders {
    match u
    case Add(_, id, side, price, quantity, priority) =>
      o[id := Resting(Public(id), side, price, quantity, priority)]
    case Modify(_, id, _, _, quantity, _) =>
      if id in o then o[id := o[id].(quantity := quantity)] else o
    case Cancel(_, id, _, _, _, _) => o - {id}
    case Clear(_) => map[]
    case _ => o
  }

  /** Applying `us` in order takes book `o` to book `o'`, every step being legal. */
  predicate Replays(o: Orders, us: seq<Update>, o': Orders)
    decreases us
  {
    if us == [] then o == o'
    else Legal(o, us[0]) && Replays(Apply(o, us[0]), us[1..], o')
  }

  lemma {:induction false} ReplaysConcat(o: Orders, us: seq<Update>, m: Orders, vs: seq<Update>, o': Orders)
    requires Replays(o, us, m) && Replays(m, vs, o')
    ensures Replays(o, us + vs, o')
    decreases us
  {
    if us == [] {
      assert us + vs == vs;
    } else {
      ReplaysConcat(Apply(o, us[0]), us[1..], m, vs, o');
      assert (us + vs)[1..] == us[1..] + vs;
    }
  }

  // ----- What a response does to the account of open orders

  datatype Open = Open(side: Side, quantity: nat)

  /** The open quantity of each order that is still alive. */
  type Ledger = map<Owner, Open>

  /** The order a response is about. The exchange fills an ACCEPTED response with the ticker in the
      client field and the client in the ticker field, so this reads those two the other way round. */
  function About(r: Response): Owner {
    Owner(if r.kind == Accepted then r.ticker else r.client, r.clientOrderId)
  }

  function Put(l: Ledger, k: Owner, side: Side, quantity: nat): Ledger {
    if quantity == 0 then l - {k} else l[k := Open(side, quantity)]
  }

  /** The ledger after a response, or None when the response does not add up. */
  function Account(l: Ledger, r: Response): Option<Ledger> {
    var k := About(r);
    match r.kind
    case Accepted =>
      if k !in l && r.side.Some? && r.executed == 0 then Some(Put(l, k, r.side.value, r.leaves)) else None
    case Filled =>
      if k in l && r.side == Some(l[k].side) && r.executed > 0 && r.executed + r.leaves == l[k].quantity
      then Some(Put(l, k, l[k].side, r.leaves)) else None
    case Cancelled =>
      if k in l && r.side == Some(l[k].side) && r.leaves == l[k].quantity then Some(l - {k}) else None
    case CancelRejected =>
      if k !in l && r.side.None? then Some(l) else None
  }

  /** Ledger `l'` is exactly what responses `rs` make of ledger `l`. */
  predicate Accounts(l: Ledger, rs: seq<Response>, l': Ledger)
    decreases rs
  {
    if rs == [] then l == l'
    else Account(l, rs[0]).Some? && Accounts(Account(l, rs[0]).value, rs[1..], l')
  }

  lemma {:induction false} AccountsConcat(l: Ledger, rs: seq<Response>, m: Ledger, ss: seq<Response>, l': Ledger)
    requires Accounts(l, rs, m) && Accounts(m, ss, l')
    ensures Accounts(l, rs + ss, l')
    decreases rs
  {
    if rs == [] {
      assert rs + ss == ss;
    } else {
      AccountsConcat(Account(l, rs[0]).value, rs[1..], m, ss, l');
      assert (rs + ss)[1..] == rs[1..] + ss;
    }
  }
}

/**
 The vocabulary shared by the exchange and by the trading client: sides, resting orders, the limits
 of `common/Types.hpp` and the price index.
 */
module Domain {

  datatype Option<+T> = None | Some(value: T)

  datatype Side = Buy | Sell

  function Opposite(s: Side): Side {
    if s == Buy then Sell else Buy
  }

  /** Price `p` ranks strictly ahead of price `q` on side `s`. */
  predicate Better(s: Side, p: int, q: int) {
    if s == Buy then p > q else p < q
  }

  /** How a book finds an order: the exchange by its client and the client's order id, a market data
      client by the public market id alone. */
  datatype Owner = Owner(client: nat, orderId: nat) | Public(id: nat)

  datatype Resting = Resting(owner: Owner, side: Side, price: int, quantity: nat, priority: nat)

  /** Resting orders by market order id. */
  type Orders = map<nat, Resting>

  const MAX_TICKERS: nat := 8
  const MAX_CLIENTS: nat := 256
  const MAX_ORDER_IDS: nat := 1024 * 1024
  const MAX_PRICE_LEVELS: nat := 256

  const ORDER_ID_INVALID: nat := 0xFFFF_FFFF_FFFF_FFFF
  const PRICE_INVALID: int := 0x7FFF_FFFF_FFFF_FFFF
  const QUANTITY_INVALID: nat := 0xFFFF_FFFF
  const PRIORITY_INVALID: nat := 0xFFFF_FFFF_FFFF_FFFF

  /** The distinct prices among some orders; a book has one level for each. */
  function Prices(o: Orders): set<int> {
    set id | id in o :: o[id].price
  }

  /** A book's two memory pools can hold these orders and their levels: a pool stops the process as it
      hands out its last block. */
  predicate Roomy(o: Orders) {
    |o| < MAX_ORDER_IDS && |Prices(o)| < MAX_PRICE_LEVELS
  }

  lemma SubsetCount<T>(a: set<T>, b: set<T>)
    requires a <= b
    ensures |a| <= |b| && (|a| == |b| ==> a == b)
  {
    assert b == a + (b - a);
    assert |b| == |a| + |b - a|;
  }

  /** Fewer orders at the same prices need no more room. */
  lemma RoomyShrinks(o: Orders, n: Orders)
    requires Roomy(o) && forall id :: id in n ==> id in o && n[id].price == o[id].price
    ensures Roomy(n)
  {
    SubsetCount(n.Keys, o.Keys);
    SubsetCount(Prices(n), Prices(o));
    assert |n| == |n.Keys| && |o| == |o.Keys|;
  }

  /** The source converts the signed price to an unsigned 64-bit value first; 256 divides 2^64, so
      this is the Euclidean remainder, for negative prices too. */
  function PriceToIndex(price: int): (r: nat)
    ensures r < MAX_PRICE_LEVELS
  {
    price % 256
  }

  /** The pools can take one more order at this price: a level is needed if no live order uses the
      price's index slot. */
  predicate RoomFor(o: Orders, price: int) {
    && |o| + 1 < MAX_ORDER_IDS
    && ((forall k :: k in o ==> PriceToIndex(o[k].price) != PriceToIndex(price)) ==> |Prices(o)| + 1 < MAX_PRICE_LEVELS)
  }

  lemma PricesWith(o: Orders, id: nat, r: Resting)
    requires id !in o
    ensures Prices(o[id := r]) == Prices(o) + {r.price}
  {
    var n := o[id := r];
    assert n[id].price == r.price;
    forall p | p in Prices(o) ensures p in Prices(n) {
      var k :| k in o && o[k].price == p;
      assert n[k].price == p;
    }
  }

  /** When the slot's live orders have that very price, there is room exactly if there is room afterwards. */
  lemma RoomForIs(o: Orders, id: nat, r: Resting)
    requires id !in o && Roomy(o)
    requires forall k :: k in o && PriceToIndex(o[k].price) == PriceToIndex(r.price) ==> o[k].price == r.price
    ensures RoomFor(o, r.price) <==> Roomy(o[id := r])
  {
    assert |o[id := r]| == |o| + 1;
    PricesWith(o, id, r);
    assert (exists k :: k in o && PriceToIndex(o[k].price) == PriceToIndex(r.price)) <==> r.price in Prices(o);
    hide PriceToIndex;
    var ps := Prices(o);
    assert r.price in ps ==> ps + {r.price} == ps;
    assert r.price !in ps ==> |ps + {r.price}| == |ps| + 1;
  }
}

/**
 The nodes of a limit order book and the surgery on its two kinds of circular ring: the FIFO of
 orders at one price, and the price levels of one side.
 */
module Rings {
  import opened Domain

  /** An order node. Only the links and the quantity change after construction. */
  class Order {
    const id: nat
    const owner: Owner
    const side: Side
    const price: int
    const priority: nat
    var quantity: nat
    var prev: Order?
    var next: Order?

    constructor (id: nat, owner: Owner, side: Side, price: int, quantity: nat, priority: nat)
      ensures this.id == id && this.owner == owner && this.side == side && this.price == price
      ensures this.quantity == quantity && this.priority == priority
    {
      this.id, this.owner, this.side, this.price := id, owner, side, price;
      this.quantity, this.priority := quantity, priority;
      prev, next := null, null;
    }

    function Data(): Resting
      reads this`quantity
    {
      Resting(owner, side, price, quantity, priority)
    }
  }

  /** A price level; `queue` is the sequence that its ring of orders spells out from `first`. */
  class Level {
    const side: Side
    const price: int
    var first: Order
    var prev: Level?
    var next: Level?
    ghost var queue: seq<Order>

    constructor (first: Order)
      ensures side == first.side && price == first.price && this.first == first && queue == [first]
    {
      side, price, this.first := first.side, first.price, first;
      prev, next, queue := null, null, [first];
    }
  }

  // ----- Positions on a ring of n nodes

  function Succ(i: nat, n: nat): nat {
    if i + 1 == n then 0 else i + 1
  }

  function Pred(i: nat, n: nat): int {
    if i == 0 then n - 1 else i - 1
  }

  function Remove<T>(s: seq<T>, i: nat): seq<T>
    requires i < |s|
  {
    s[..i] + s[i + 1..]
  }

  function Insert<T>(s: seq<T>, i: nat, x: T): seq<T>
    requires i <= |s|
  {
    s[..i] + [x] + s[i..]
  }

  ghost predicate Distinct<T>(s: seq<T>) {
    forall i, j :: 0 <= i < j < |s| ==> s[i] != s[j]
  }

  // ----- The ring of orders at one price

  ghost predicate OrderNext(q: seq<Order>)
    reads q`next
  {
    forall i {:trigger q[i].next} :: 0 <= i < |q| ==> q[i].next == q[Succ(i, |q|)]
  }

  ghost predicate OrderPrev(q: seq<Order>)
    reads q`prev
  {
    forall i {:trigger q[i].prev} :: 0 <= i < |q| ==> q[i].prev == q[Pred(i, |q|)]
  }

  ghost predicate IdsAscend(q: seq<Order>) {
    forall i, j :: 0 <= i < j < |q| ==> q[i].id < q[j].id
  }

  /** The market ids along a queue. */
  ghost function Ids(q: seq<Order>): seq<nat> {
    seq(|q|, i requires 0 <= i < |q| => q[i].id)
  }

  ghost predicate AllAt(q: seq<Order>, s: Side, price: int) {
    forall i :: 0 <= i < |q| ==> q[i].side == s && q[i].price == price
  }

  /** The FIFO of one level: well linked both ways, oldest first, all at the level's price. */
  ghost predicate Fifo(l: Level)
    reads l`first, l`queue, l.queue`prev, l.queue`next
  {
    && |l.queue| > 0
    && l.first == l.queue[0]
    && OrderNext(l.queue)
    && OrderPrev(l.queue)
    && IdsAscend(l.queue)
    && AllAt(l.queue, l.side, l.price)
  }

  /** Links of `q` once position `k` has been bypassed. */
  ghost predicate OrderNextBut(q: seq<Order>, k: nat)
    requires k < |q|
    reads q`next
  {
    forall j {:trigger q[j].next} :: 0 <= j < |q| && j != k ==>
      q[j].next == if j == Pred(k, |q|) then q[Succ(k, |q|)] else q[Succ(j, |q|)]
  }

  ghost predicate OrderPrevBut(q: seq<Order>, k: nat)
    requires k < |q|
    reads q`prev
  {
    forall j {:trigger q[j].prev} :: 0 <= j < |q| && j != k ==>
      q[j].prev == if j == Succ(k, |q|) then q[Pred(k, |q|)] else q[Pred(j, |q|)]
  }

  lemma OrderNextRemoved(q: seq<Order>, k: nat)
    requires k < |q| && |q| > 1 && OrderNextBut(q, k)
    ensures OrderNext(Remove(q, k))
  {
    var r := Remove(q, k);
    forall i | 0 <= i < |r| ensures r[i].next == r[Succ(i, |r|)] {
      assert r[i] == q[if i < k then i else i + 1];
    }
  }

  lemma OrderPrevRemoved(q: seq<Order>, k: nat)
    requires k < |q| && |q| > 1 && OrderPrevBut(q, k)
    ensures OrderPrev(Remove(q, k))
  {
    var r := Remove(q, k);
    forall i | 0 <= i < |r| ensures r[i].prev == r[Pred(i, |r|)] {
      assert r[i] == q[if i < k then i else i + 1];
    }
  }

  /** The four pointer writes that take `o` out of its ring. */
  method BypassOrder(ghost q: seq<Order>, o: Order, ghost k: nat)
    requires OrderNext(q) && OrderPrev(q) && Distinct(q) && k < |q| && q[k] == o && |q| > 1
    modifies q`prev, q`next
    ensures OrderNextBut(q, k) && OrderPrevBut(q, k)
  {
    assert o.prev == q[Pred(k, |q|)] && o.next == q[Succ(k, |q|)];
    var before := o.prev;
    var after := o.next;
    before.next := after;
    after.prev := before;
    o.prev, o.next := null, null;
  }

  lemma RemovedStaysSorted(q: seq<Order>, k: nat, s: Side, price: int)
    requires k < |q| && IdsAscend(q) && AllAt(q, s, price)
    ensures IdsAscend(Remove(q, k)) && AllAt(Remove(q, k), s, price)
  {
    var r := Remove(q, k);
    assert forall i :: 0 <= i < |r| ==> r[i] == q[if i < k then i else i + 1];
  }

  lemma RemovedHead(q: seq<Order>, k: nat)
    requires k < |q| && |q| > 1
    ensures |Remove(q, k)| == |q| - 1 && Remove(q, k)[0] == if k == 0 then q[Succ(0, |q|)] else q[0]
  {
  }

  lemma AscendingIsDistinct(q: seq<Order>)
    requires IdsAscend(q)
    ensures Distinct(q)
  {
  }

  /** The unlinking branch of removeOrder: the level keeps at least one order. */
  method UnlinkOrder(l: Level, o: Order, ghost k: nat)
    requires Fifo(l) && k < |l.queue| && l.queue[k] == o && |l.queue| > 1
    modifies l`first, l`queue, l.queue`prev, l.queue`next
    ensures Fifo(l) && l.queue == Remove(old(l.queue), k)
  {
    ghost var q := l.queue;
    var after := o.next;
    assert after == q[Succ(k, |q|)];
    AscendingIsDistinct(q);
    hide OrderNext, OrderPrev, OrderNextBut, OrderPrevBut, IdsAscend, AllAt, Remove, Succ;
    assert l.first == o ==> k == 0;
    RemovedHead(q, k);
    RemovedStaysSorted(q, k, l.side, l.price);
    if l.first == o {
      l.first := after;
    }
    l.queue := Remove(q, k);
    BypassOrder(q, o, k);
    OrderNextRemoved(q, k);
    OrderPrevRemoved(q, k);
  }

  lemma OrderRingAppended(q: seq<Order>, o: Order)
    requires |q| > 0
    requires forall j {:trigger q[j].next} :: 0 <= j < |q| ==>
      q[j].next == if j == |q| - 1 then o else q[j + 1]
    requires forall j {:trigger q[j].prev} :: 0 <= j < |q| ==>
      q[j].prev == if j == 0 then o else q[j - 1]
    requires o.prev == q[|q| - 1] && o.next == q[0]
    ensures OrderNext(q + [o]) && OrderPrev(q + [o])
  {
  }

  /** The four pointer writes that put `o` between the last and the first order of a ring. */
  method LinkLast(ghost q: seq<Order>, first: Order, o: Order)
    requires |q| > 0 && OrderNext(q) && OrderPrev(q) && Distinct(q) && first == q[0] && o !in q
    modifies q`prev, q`next, o`prev, o`next
    ensures OrderNext(q + [o]) && OrderPrev(q + [o])
  {
    assert first.prev == q[|q| - 1];
    first.prev.next := o;
    o.prev := first.prev;
    o.next := first;
    first.prev := o;
    OrderRingAppended(q, o);
  }

  /** Order `o` belongs at the end of the queue of level `l`. */
  ghost predicate BelongsAtEnd(l: Level, o: Order)
    requires |l.queue| > 0
    reads l`queue
  {
    o.side == l.side && o.price == l.price && l.queue[|l.queue| - 1].id < o.id
  }

  lemma AppendedIsSorted(q: seq<Order>, o: Order, s: Side, price: int)
    requires |q| > 0 && IdsAscend(q) && AllAt(q, s, price)
    ensures IdsAscend(q + [o]) && AllAt(q + [o], s, price) <==> o.side == s && o.price == price && q[|q| - 1].id < o.id
  {
    var r := q + [o];
    assert r[|q|] == o && r[|q| - 1] == q[|q| - 1];
    assert forall i :: 0 <= i < |q| ==> r[i] == q[i];
  }

  /** The appending branch of addOrder: the slot of the order's price holds a level. The source does not
      ask whether it is the right one. */
  method AppendOrder(l: Level, o: Order)
    requires Fifo(l) && o !in l.queue
    modifies l`queue, l.queue`prev, l.queue`next, o`prev, o`next
    ensures l.queue == old(l.queue) + [o]
    ensures Fifo(l) <==> old(BelongsAtEnd(l, o))
  {
    AscendingIsDistinct(l.queue);
    AppendedIsSorted(l.queue, o, l.side, l.price);
    hide OrderNext, OrderPrev, IdsAscend, AllAt, Distinct;
    LinkLast(l.queue, l.first, o);
    l.queue := l.queue + [o];
  }

  // ----- The ring of price levels of one side

  ghost predicate LevelNext(ls: seq<Level>)
    reads ls`next
  {
    forall i {:trigger ls[i].next} :: 0 <= i < |ls| ==> ls[i].next == ls[Succ(i, |ls|)]
  }

  ghost predicate LevelPrev(ls: seq<Level>)
    reads ls`prev
  {
    forall i {:trigger ls[i].prev} :: 0 <= i < |ls| ==> ls[i].prev == ls[Pred(i, |ls|)]
  }

  /** Strictly sorted from the best price of side `s`. */
  ghost predicate Sorted(s: Side, ls: seq<Level>) {
    && (forall i :: 0 <= i < |ls| ==> ls[i].side == s)
    && (forall i, j :: 0 <= i < j < |ls| ==> Better(s, ls[i].price, ls[j].price))
  }

  ghost predicate Ladder(s: Side, best: Level?, ls: seq<Level>)
    reads ls`prev, ls`next
  {
    && Sorted(s, ls)
    && LevelNext(ls)
    && LevelPrev(ls)
    && best == if |ls| == 0 then null else ls[0]
  }

  ghost predicate LevelNextBut(ls: seq<Level>, k: nat)
    requires k < |ls|
    reads ls`next
  {
    forall j {:trigger ls[j].next} :: 0 <= j < |ls| && j != k ==>
      ls[j].next == if j == Pred(k, |ls|) then ls[Succ(k, |ls|)] else ls[Succ(j, |ls|)]
  }

  ghost predicate LevelPrevBut(ls: seq<Level>, k: nat)
    requires k < |ls|
    reads ls`prev
  {
    forall j {:trigger ls[j].prev} :: 0 <= j < |ls| && j != k ==>
      ls[j].prev == if j == Succ(k, |ls|) then ls[Pred(k, |ls|)] else ls[Pred(j, |ls|)]
  }

  lemma LevelNextRemoved(ls: seq<Level>, k: nat)
    requires k < |ls| && |ls| > 1 && LevelNextBut(ls, k)
    ensures LevelNext(Remove(ls, k))
  {
    var r := Remove(ls, k);
    forall i | 0 <= i < |r| ensures r[i].next == r[Succ(i, |r|)] {
      assert r[i] == ls[if i < k then i else i + 1];
    }
  }

  lemma LevelPrevRemoved(ls: seq<Level>, k: nat)
    requires k < |ls| && |ls| > 1 && LevelPrevBut(ls, k)
    ensures LevelPrev(Remove(ls, k))
  {
    var r := Remove(ls, k);
    forall i | 0 <= i < |r| ensures r[i].prev == r[Pred(i, |r|)] {
      assert r[i] == ls[if i < k then i else i + 1];
    }
  }

  /** The four pointer writes that take `l` out of its ring. */
  method BypassLevel(ghost ls: seq<Level>, l: Level, ghost k: nat)
    requires LevelNext(ls) && LevelPrev(ls) && Distinct(ls) && k < |ls| && ls[k] == l && |ls| > 1
    modifies ls`prev, ls`next
    ensures LevelNextBut(ls, k) && LevelPrevBut(ls, k)
  {
    assert l.prev == ls[Pred(k, |ls|)] && l.next == ls[Succ(k, |ls|)];
    l.prev.next := l.next;
    l.next.prev := l.prev;
    l.prev, l.next := null, null;
  }

  lemma LevelRemoved(s: Side, ls: seq<Level>, k: nat)
    requires k < |ls| && |ls| > 1 && Sorted(s, ls)
    ensures Sorted(s, Remove(ls, k)) && Distinct(ls)
    ensures |Remove(ls, k)| == |ls| - 1 && Remove(ls, k)[0] == if k == 0 then ls[Succ(0, |ls|)] else ls[0]
  {
    var r := Remove(ls, k);
    assert forall i :: 0 <= i < |r| ==> r[i] == ls[if i < k then i else i + 1];
  }

  /** removeOrderAtPrice: unlinks `l` and returns the side's new best level. */
  method UnlinkLevel(s: Side, best: Level?, ghost ls: seq<Level>, l: Level, ghost k: nat) returns (newBest: Level?)
    requires Ladder(s, best, ls) && k < |ls| && ls[k] == l
    modifies ls`prev, ls`next
    ensures Ladder(s, newBest, Remove(ls, k))
  {
    if l.next == l {
      assert |ls| == 1;
      newBest := null;
    } else {
      LevelRemoved(s, ls, k);
      assert l.next == ls[Succ(k, |ls|)] && (l == best <==> k == 0);
      newBest := if l == best then l.next else best;
      hide LevelNext, LevelPrev, LevelNextBut, LevelPrevBut, Sorted, Remove, Succ, Distinct;
      BypassLevel(ls, l, k);
      LevelNextRemoved(ls, k);
      LevelPrevRemoved(ls, k);
    }
  }

  lemma LevelNextInserted(ls: seq<Level>, p: nat, x: Level)
    requires 0 < |ls| && p <= |ls|
    requires forall j {:trigger ls[j].next} :: 0 <= j < |ls| ==>
      ls[j].next == if j == Pred(p, |ls|) || (p == |ls| && j == p - 1) then x else ls[Succ(j, |ls|)]
    requires x.next == if p == |ls| then ls[0] else ls[p]
    ensures LevelNext(Insert(ls, p, x))
  {
    var r := Insert(ls, p, x);
    forall i | 0 <= i < |r| ensures r[i].next == r[Succ(i, |r|)] {
      assert i < p ==> r[i] == ls[i];
      assert i > p ==> r[i] == ls[i - 1];
    }
  }

  lemma LevelPrevInserted(ls: seq<Level>, p: nat, x: Level)
    requires 0 < |ls| && p <= |ls|
    requires forall j {:trigger ls[j].prev} :: 0 <= j < |ls| ==>
      ls[j].prev == if j == p || (p == |ls| && j == 0) then x else ls[Pred(j, |ls|)]
    requires x.prev == ls[Pred(p, |ls|)]
    ensures LevelPrev(Insert(ls, p, x))
  {
    var r := Insert(ls, p, x);
    forall i | 0 <= i < |r| ensures r[i].prev == r[Pred(i, |r|)] {
      assert i < p ==> r[i] == ls[i];
      assert i > p ==> r[i] == ls[i - 1];
    }
  }

  /** A level at `price` belongs at position `p` of the ladder. */
  ghost predicate Slot(s: Side, ls: seq<Level>, price: int, p: nat) {
    && p <= |ls|
    && (forall i :: 0 <= i < p ==> Better(s, ls[i].price, price))
    && (forall i :: p <= i < |ls| ==> Better(s, price, ls[i].price))
  }

  lemma SortedInsert(s: Side, ls: seq<Level>, p: nat, x: Level)
    requires Sorted(s, ls) && x.side == s && Slot(s, ls, x.price, p)
    ensures Sorted(s, Insert(ls, p, x))
  {
  }

  /** The walk of addOrderAtPrice: it stops at the first level worse than `price`, or it comes back
      to the best level with `addAfter` still set. */
  method FindSlot(s: Side, best: Level, ghost ls: seq<Level>, price: int)
    returns (target: Level, addAfter: bool, ghost p: nat)
    requires Ladder(s, best, ls) && |ls| > 0
    requires forall i :: 0 <= i < |ls| ==> ls[i].price != price
    ensures Slot(s, ls, price, p)
    ensures addAfter <==> p == |ls|
    ensures target == if addAfter then best else ls[p]
  {
    target, p := best, 0;
    addAfter := Better(s, target.price, price);
    if addAfter {
      target, p := target.next, 1;
      addAfter := Better(s, target.price, price);
    }
    while addAfter && target != best
      invariant 0 <= p <= |ls|
      invariant target == if p == |ls| then ls[0] else ls[p]
      invariant forall i :: 0 <= i < p ==> Better(s, ls[i].price, price)
      invariant !addAfter ==> p < |ls| && Better(s, price, ls[p].price)
      invariant addAfter ==> p > 0
      decreases |ls| - p, addAfter
    {
      addAfter := Better(s, target.price, price);
      if addAfter {
        target, p := target.next, p + 1;
      }
    }
  }

  /** The four pointer writes that put `x` in front of `target`. */
  method LinkLevel(ghost ls: seq<Level>, ghost p: nat, target: Level, x: Level)
    requires p < |ls| && LevelNext(ls) && LevelPrev(ls) && Distinct(ls) && x !in ls
    requires target == ls[p]
    modifies ls`prev, ls`next, x`prev, x`next
    ensures LevelNext(Insert(ls, p, x)) && LevelPrev(Insert(ls, p, x))
  {
    assert target.prev == ls[Pred(p, |ls|)];
    x.prev := target.prev;
    x.next := target;
    target.prev.next := x;
    target.prev := x;
    LevelNextInserted(ls, p, x);
    LevelPrevInserted(ls, p, x);
  }

  /** The four pointer writes that put `x` behind the worst level. */
  method LinkTail(ghost ls: seq<Level>, best: Level, x: Level)
    requires |ls| > 0 && LevelNext(ls) && LevelPrev(ls) && Distinct(ls) && x !in ls && best == ls[0]
    modifies ls`prev, ls`next, x`prev, x`next
    ensures LevelNext(Insert(ls, |ls|, x)) && LevelPrev(Insert(ls, |ls|, x))
  {
    assert best.prev == ls[|ls| - 1];
    var target := best.prev;
    x.prev := target;
    target.next.prev := x;
    x.next := target.next;
    target.next := x;
    LevelNextInserted(ls, |ls|, x);
    LevelPrevInserted(ls, |ls|, x);
  }

  /** addOrderAtPrice: links a new level into its side and returns the side's best level. */
  method InsertLevel(s: Side, best: Level?, ghost ls: seq<Level>, x: Level)
    returns (newBest: Level, ghost p: nat)
    requires Ladder(s, best, ls) && x.side == s
    requires forall i :: 0 <= i < |ls| ==> ls[i].price != x.price
    modifies ls`prev, ls`next, x`prev, x`next
    ensures p <= |ls| && Ladder(s, newBest, Insert(ls, p, x))
  {
    if best == null {
      newBest, p := x, 0;
      x.prev, x.next := x, x;
    } else {
      var target, addAfter;
      target, addAfter, p := FindSlot(s, best, ls, x.price);
      SortedInsert(s, ls, p, x);
      newBest := best;
      if addAfter {
        LinkTail(ls, best, x);
      } else {
        LinkLevel(ls, p, target, x);
        if Better(s, x.price, best.price) {
          target.next := if target.next == best then x else target.next;
          newBest := x;
        }
      }
    }
  }
}

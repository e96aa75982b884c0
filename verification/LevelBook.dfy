/**
 The whole pointer book: two ladders of price levels, the FIFO of each level, and the price index.
 The exchange's book and the trading client's book are both built on it; the source spells the same
 surgery out twice.
 */
module LevelBook {
  import opened Domain
  import opened Rings

  /** The order index holds exactly the live orders. */
  ghost predicate Exact(index: map<Owner, Order>, pool: set<Order>) {
    && (forall o :: o in pool ==> o.owner in index && index[o.owner] == o)
    && (forall k :: k in index ==> index[k] in pool && index[k].owner == k)
  }

  lemma ExactWithout(index: map<Owner, Order>, pool: set<Order>, o: Order)
    requires Exact(index, pool) && o in pool
    ensures Exact(index - {o.owner}, pool - {o})
  {
  }

  lemma ExactWith(index: map<Owner, Order>, pool: set<Order>, o: Order)
    requires Exact(index, pool) && o.owner !in index
    ensures Exact(index[o.owner := o], pool + {o})
  {
  }

  class Book {
    var bids: Level?
    var asks: Level?
    const priceIndex: array<Level?>
    var index: map<Owner, Order>
    var orderBlocks: nat  // blocks in use in the two memory pools
    var levelBlocks: nat
    ghost var bidLevels: seq<Level>
    ghost var askLevels: seq<Level>
    ghost var levels: set<Level>
    ghost var pool: set<Order>

    ghost predicate Ladders()
      reads `bids, `asks, `bidLevels, `askLevels, `levels
      reads bidLevels`prev, bidLevels`next, askLevels`prev, askLevels`next
    {
      && Ladder(Buy, bids, bidLevels)
      && Ladder(Sell, asks, askLevels)
      && (forall l :: l in levels ==> l in bidLevels || l in askLevels)
      && (forall l :: l in bidLevels ==> l in levels)
      && (forall l :: l in askLevels ==> l in levels)
    }

    /** The price index is exact: it holds every live level, in its slot, and nothing else. */
    ghost predicate Indexed()
      reads `levels, priceIndex
    {
      && priceIndex.Length == MAX_PRICE_LEVELS
      && (forall l :: l in levels ==> priceIndex[PriceToIndex(l.price)] == l)
      && (forall k :: 0 <= k < MAX_PRICE_LEVELS && priceIndex[k] != null ==>
            priceIndex[k] in levels && PriceToIndex(priceIndex[k].price) == k)
    }

    ghost predicate Fifos()
      requires forall l, o :: l in levels && o in l.queue ==> o in pool
      reads `levels, `pool, levels, pool`prev, pool`next
    {
      forall l :: l in levels ==> Fifo(l)
    }

    /** Each live order is queued at the level that the index gives for its price, and only there. */
    ghost predicate Housed()
      requires priceIndex.Length == MAX_PRICE_LEVELS
      reads `levels, `pool, priceIndex, levels`queue
    {
      && (forall l, o :: l in levels && o in l.queue ==> o in pool)
      && (forall o :: o in pool ==>
            var l := priceIndex[PriceToIndex(o.price)];
            l in levels && l.side == o.side && l.price == o.price && o in l.queue)
    }

    /** Market ids tell the live orders apart. */
    ghost predicate Named()
      reads `pool
    {
      forall o, p :: o in pool && p in pool && o.id == p.id ==> o == p
    }

    ghost predicate Structured()
      reads `bids, `asks, `bidLevels, `askLevels, `levels, `pool, priceIndex, levels, bidLevels`prev, bidLevels`next, askLevels`prev, askLevels`next
      reads pool`prev, pool`next
    {
      // bound to a name so that the invariant is handed on as one fact
      var sound := Ladders() && Indexed() && Housed() && Fifos() && Named();
      sound
    }

    /** Each live order and each live level has one block, and neither pool is exhausted. */
    ghost predicate Counted()
      reads `orderBlocks, `levelBlocks, `levels, `pool
    {
      && orderBlocks == |pool| < MAX_ORDER_IDS
      && levelBlocks == |levels| < MAX_PRICE_LEVELS
    }

    ghost predicate Valid()
      reads this, priceIndex, levels, bidLevels`prev, bidLevels`next, askLevels`prev, askLevels`next
      reads pool`prev, pool`next
      ensures Valid() ==> Named() && Exact(index, pool) && Counted()
    {
      var sound := Structured() && Exact(index, pool) && Counted();
      sound
    }

    /** What the book says to the outside: its resting orders by market id. */
    ghost function View(): Orders
      requires Named()
      reads `pool, pool`quantity
    {
      map o | o in pool :: o.id := o.Data()
    }

    static lemma RemoveMembers<T>(q: seq<T>, k: nat)
      requires k < |q| && Distinct(q)
      ensures forall x :: x in Remove(q, k) ==> x in q && x != q[k]
      ensures forall x :: x in q && x != q[k] ==> x in Remove(q, k)
    {
      var r := Remove(q, k);
      assert forall i :: 0 <= i < |r| ==> r[i] == q[if i < k then i else i + 1];
      forall x | x in q && x != q[k] ensures x in r {
        var i :| 0 <= i < |q| && q[i] == x;
        assert r[if i < k then i else i - 1] == x;
      }
    }

    static lemma InsertMembers<T>(q: seq<T>, p: nat, x: T)
      requires p <= |q|
      ensures x in Insert(q, p, x)
      ensures forall y :: y in Insert(q, p, x) ==> y == x || y in q
      ensures forall y :: y in q ==> y in Insert(q, p, x)
    {
      assert q == q[..p] + q[p..];
    }

    static twostate lemma FifoKept(m: Level)
      requires old(Fifo(m)) && m.first == old(m.first) && m.queue == old(m.queue)
      requires forall o :: o in m.queue ==> o.prev == old(o.prev) && o.next == old(o.next)
      ensures Fifo(m)
    {
      assert forall i :: 0 <= i < |m.queue| ==> m.queue[i] in m.queue;
    }

    twostate lemma OtherFifosKept(l: Level)
      requires old(Structured()) && l in old(levels)
      requires forall m :: m in old(levels) && m != l ==> m.first == old(m.first) && m.queue == old(m.queue)
      requires forall o :: o in old(pool) && o !in old(l.queue) ==> o.prev == old(o.prev) && o.next == old(o.next)
      ensures forall m :: m in old(levels) && m != l ==> Fifo(m)
    {
      forall m | m in old(levels) && m != l ensures Fifo(m) {
        assert old(Fifo(m) && Fifo(l));
        assert m.side != l.side || m.price != l.price;
        assert forall o :: o in m.queue ==> o in old(pool) && o !in old(l.queue);
        FifoKept(m);
      }
    }

    twostate lemma BidsKept()
      requires old(Ladder(Buy, bids, bidLevels)) && bids == old(bids) && bidLevels == old(bidLevels)
      requires forall l :: l in bidLevels ==> l.prev == old(l.prev) && l.next == old(l.next)
      ensures Ladder(Buy, bids, bidLevels)
    {
      assert forall i :: 0 <= i < |bidLevels| ==> bidLevels[i] in bidLevels;
    }

    twostate lemma AsksKept()
      requires old(Ladder(Sell, asks, askLevels)) && asks == old(asks) && askLevels == old(askLevels)
      requires forall l :: l in askLevels ==> l.prev == old(l.prev) && l.next == old(l.next)
      ensures Ladder(Sell, asks, askLevels)
    {
      assert forall i :: 0 <= i < |askLevels| ==> askLevels[i] in askLevels;
    }

    /** Queues and pool agree again once the pool has lost what the queue of `l` has lost. */
    twostate lemma HousedAfterUnlink(l: Level)
      requires old(Structured()) && l in old(levels)
      requires levels == old(levels) && pool <= old(pool)
      requires forall m :: m in levels && m != l ==> m.queue == old(m.queue)
      requires forall i :: 0 <= i < MAX_PRICE_LEVELS ==> priceIndex[i] == old(priceIndex[i])
      requires forall x :: x in l.queue ==> x in old(l.queue) && x in pool
      requires forall x :: x in old(l.queue) && x in pool ==> x in l.queue
      requires forall x :: x in old(pool) && x !in old(l.queue) ==> x in pool
      ensures Housed()
    {
      forall m, x | m in levels && x in m.queue ensures x in pool {
        if m != l {
          assert old(Fifo(m) && Fifo(l));
          assert m.side != l.side || m.price != l.price;
        }
      }
    }

    /** The structure is valid again after surgery inside the queue of `l` alone. */
    twostate lemma AfterQueueSurgery(l: Level)
      requires old(Structured()) && l in old(levels)
      requires unchanged(`bids, `asks, `bidLevels, `askLevels, `levels, priceIndex)
      requires forall m :: m in levels ==> m.prev == old(m.prev) && m.next == old(m.next)
      requires forall m :: m in levels && m != l ==> m.first == old(m.first) && m.queue == old(m.queue)
      requires forall o :: o in old(pool) && o !in old(l.queue) ==> o.prev == old(o.prev) && o.next == old(o.next)
      requires Fifo(l) && Named() && Housed()
      ensures Structured()
    {
      BidsKept();
      AsksKept();
      OtherFifosKept(l);
    }

    ghost function Home(o: Order): (l: Level)
      requires Structured() && o in pool
      reads `bids, `asks, `bidLevels, `askLevels, `levels, `pool, priceIndex, levels, bidLevels`prev, bidLevels`next, askLevels`prev, askLevels`next
      reads pool`prev, pool`next
      ensures l in levels && o in l.queue
    {
      priceIndex[PriceToIndex(o.price)]
    }

    twostate lemma AfterUnlink(o: Order)
      requires old(Structured()) && o in old(pool)
      requires unchanged(`bids, `asks, `bidLevels, `askLevels, `levels, priceIndex)
      requires unchanged(levels`prev, levels`next)
      requires forall m :: m in levels && m != old(Home(o)) ==> m.first == old(m.first) && m.queue == old(m.queue)
      requires forall x :: x in old(pool) && x !in old(Home(o).queue) ==> x.prev == old(x.prev) && x.next == old(x.next)
      requires forall x :: x in old(Home(o)).queue ==> x in old(Home(o).queue) && x != o
      requires forall x :: x in old(Home(o).queue) && x != o ==> x in old(Home(o)).queue
      requires Fifo(old(Home(o)))
      requires pool == old(pool) - {o}
      ensures Structured()
    {
      var l := old(Home(o));
      HousedAfterUnlink(l);
      AfterQueueSurgery(l);
    }

    /** removeOrder, when the level keeps other orders. */
    method RemoveFromLevel(l: Level, o: Order, ghost k: nat)
      requires Structured() && o in pool && l == Home(o) && k < |l.queue| && l.queue[k] == o && |l.queue| > 1
      modifies `pool, l`first, l`queue, l.queue`prev, l.queue`next
      ensures Structured()
      ensures pool == old(pool) - {o} && levels == old(levels)
    {
      RemoveMembers(l.queue, k);
      pool := pool - {o};
      UnlinkOrder(l, o, k);
      AfterUnlink(o);
    }

    twostate lemma AfterRemoveLevel(o: Order)
      requires old(Structured()) && o in old(pool) && old(Home(o).queue) == [o]
      requires pool == old(pool) - {o} && levels == old(levels) - {old(Home(o))}
      requires unchanged(levels`first, levels`queue, pool`prev, pool`next)
      requires forall i :: 0 <= i < MAX_PRICE_LEVELS ==>
        priceIndex[i] == if i == PriceToIndex(o.price) then null else old(priceIndex[i])
      requires Ladders()
      ensures Structured()
    {
      hide Ladders, OrderNext, OrderPrev, IdsAscend, Distinct;
      var l := old(Home(o));
      assert o in old(l.queue);
      forall m | m in levels ensures Fifo(m) && forall x :: x in m.queue ==> x in pool {
        assert old(Fifo(m) && Fifo(l));
        assert m.side != l.side || m.price != l.price;
        assert forall x :: x in m.queue ==> x in old(pool) && x != o;
        FifoKept(m);
      }
    }

    lemma LadderSides()
      requires Ladders()
      ensures forall l :: l in bidLevels ==> l.side == Buy
      ensures forall l :: l in askLevels ==> l.side == Sell
      ensures Distinct(bidLevels) && Distinct(askLevels)
    {
    }

    /** removeOrderAtPrice: takes level `l` out of its side's ladder. */
    method UnlinkFromSide(l: Level)
      requires Ladders() && l in levels
      modifies `bids, `asks, `bidLevels, `askLevels, `levels
      modifies bidLevels`prev, bidLevels`next, askLevels`prev, askLevels`next
      ensures Ladders() && levels == old(levels) - {l}
    {
      hide Ladder, Remove, Distinct;
      LadderSides();
      levels := levels - {l};
      if l.side == Buy {
        ghost var ls := bidLevels;
        ghost var k :| 0 <= k < |ls| && ls[k] == l;
        RemoveMembers(ls, k);
        bidLevels := Remove(ls, k);
        bids := UnlinkLevel(Buy, bids, ls, l, k);
        AsksKept();
      } else {
        ghost var ls := askLevels;
        ghost var k :| 0 <= k < |ls| && ls[k] == l;
        RemoveMembers(ls, k);
        askLevels := Remove(ls, k);
        asks := UnlinkLevel(Sell, asks, ls, l, k);
        BidsKept();
      }
    }

    lemma HomeIsOwn(o: Order)
      requires Structured() && o in pool
      ensures Ladders() && priceIndex.Length == MAX_PRICE_LEVELS && Home(o).price == o.price
    {
    }

    /** removeOrder, when `o` is the last order of its level. */
    method RemoveLevel(l: Level, ghost o: Order)
      requires Structured() && o in pool && l == Home(o) && l.queue == [o]
      modifies `bids, `asks, `bidLevels, `askLevels, `levels, `pool, priceIndex
      modifies bidLevels`prev, bidLevels`next, askLevels`prev, askLevels`next
      ensures Structured()
      ensures pool == old(pool) - {o} && levels == old(levels) - {l}
    {
      HomeIsOwn(o);
      hide Structured, Ladders, Fifo;
      pool := pool - {o};
      priceIndex[PriceToIndex(l.price)] := null;
      UnlinkFromSide(l);
      AfterRemoveLevel(o);
    }

    /** The list surgery of removeOrder. */
    method Unlink(o: Order)
      requires Structured() && o in pool && levelBlocks == |levels|
      modifies `bids, `asks, `bidLevels, `askLevels, `levels, `pool, `levelBlocks
      modifies priceIndex, levels, pool`prev, pool`next
      ensures Structured() && pool == old(pool) - {o} && levels <= old(levels) && levelBlocks == |levels|
    {
      var l := priceIndex[PriceToIndex(o.price)];
      assert Fifo(l);
      ghost var k :| 0 <= k < |l.queue| && l.queue[k] == o;
      if o.prev == o {
        RemoveLevel(l, o);
        levelBlocks := levelBlocks - 1;
      } else {
        RemoveFromLevel(l, o, k);
      }
    }

    /** removeOrder. */
    method RemoveOrder(o: Order)
      requires Valid() && o in pool
      modifies this, priceIndex, levels, pool`prev, pool`next
      ensures Valid() && pool == old(pool) - {o} && levels <= old(levels)
    {
      hide Structured, Exact;
      ExactWithout(index, pool, o);
      ghost var before := levels;
      Unlink(o);
      SubsetCount(levels, before);
      index := index - {o.owner};
      orderBlocks := orderBlocks - 1;
    }

    twostate lemma AfterAppend(o: Order)
      requires old(Structured()) && o !in old(pool) && pool == old(pool) + {o}
      requires forall x :: x in old(pool) ==> x.id != o.id
      requires unchanged(`bids, `asks, `bidLevels, `askLevels, `levels, priceIndex)
      requires unchanged(levels`prev, levels`next)
      requires var l := priceIndex[PriceToIndex(o.price)];
        && l in levels && l.side == o.side && l.price == o.price && l.queue == old(l.queue) + [o] && Fifo(l)
        && (forall m :: m in levels && m != l ==> m.first == old(m.first) && m.queue == old(m.queue))
        && (forall x :: x in old(pool) && x !in old(l.queue) ==> x.prev == old(x.prev) && x.next == old(x.next))
      ensures Structured()
    {
      hide Ladders, Fifo;
      var l: Level := priceIndex[PriceToIndex(o.price)];
      assert Housed() && Named();
      AfterQueueSurgery(l);
    }

    /** The index slot of the order's price is free or holds its own level, and it is newer than the orders
        there. */
    ghost predicate Placeable(o: Order)
      reads `pool
    {
      forall x :: x in pool && PriceToIndex(x.price) == PriceToIndex(o.price) ==>
        x.price == o.price && x.side == o.side && x.id < o.id
    }

    lemma PlaceableAtLevel(l: Level, o: Order)
      requires Structured() && l == priceIndex[PriceToIndex(o.price)]
      ensures l in levels && Fifo(l) && (Placeable(o) <==> BelongsAtEnd(l, o))
    {
      hide Ladders;
      assert Fifo(l);
      var tail := l.queue[|l.queue| - 1];
      assert tail in l.queue && PriceToIndex(tail.price) == PriceToIndex(o.price);
      assert forall x :: x in pool && PriceToIndex(x.price) == PriceToIndex(o.price) ==> x in l.queue;
    }

    lemma BrokenQueue(l: Level)
      requires l in levels && !Fifo(l)
      ensures !Structured()
    {
    }

    /** addOrder, when the slot of the price holds a level: sound afterwards exactly if the order belongs
        there. */
    method AppendToLevel(l: Level, o: Order)
      requires Structured() && o !in pool && l == priceIndex[PriceToIndex(o.price)]
      requires forall x :: x in pool ==> x.id != o.id
      modifies `pool, l`queue, l.queue`prev, l.queue`next, o`prev, o`next
      ensures pool == old(pool) + {o}
      ensures Structured() <==> old(Placeable(o))
    {
      PlaceableAtLevel(l, o);
      LevelIsLive(PriceToIndex(o.price));
      hide Structured, Placeable, Fifo, Named;
      pool := pool + {o};
      AppendOrder(l, o);
      if old(BelongsAtEnd(l, o)) {
        AfterAppend(o);
      } else {
        BrokenQueue(l);
      }
    }

    /** addOrderAtPrice: puts level `x` into its side's ladder. */
    method LinkIntoSide(x: Level)
      requires Ladders() && x !in levels
      requires forall l :: l in levels && l.side == x.side ==> l.price != x.price
      modifies `bids, `asks, `bidLevels, `askLevels, `levels, x`prev, x`next
      modifies bidLevels`prev, bidLevels`next, askLevels`prev, askLevels`next
      ensures Ladders() && levels == old(levels) + {x}
    {
      hide Ladder, Insert, Distinct;
      LadderSides();
      levels := levels + {x};
      if x.side == Buy {
        ghost var p;
        ghost var ls := bidLevels;
        bids, p := InsertLevel(Buy, bids, ls, x);
        InsertMembers(ls, p, x);
        bidLevels := Insert(ls, p, x);
        AsksKept();
      } else {
        ghost var p;
        ghost var ls := askLevels;
        asks, p := InsertLevel(Sell, asks, ls, x);
        InsertMembers(ls, p, x);
        askLevels := Insert(ls, p, x);
        BidsKept();
      }
    }

    twostate lemma AfterAddLevel(o: Order)
      requires old(Structured()) && old(priceIndex[PriceToIndex(o.price)]) == null
      requires o !in old(pool) && pool == old(pool) + {o}
      requires forall x :: x in old(pool) ==> x.id != o.id
      requires unchanged(old(levels)`first, old(levels)`queue, old(pool)`prev, old(pool)`next)
      requires forall i :: 0 <= i < MAX_PRICE_LEVELS && i != PriceToIndex(o.price) ==> priceIndex[i] == old(priceIndex[i])
      requires var x := priceIndex[PriceToIndex(o.price)];
        && x != null && x.side == o.side && x.price == o.price && x.queue == [o] && Fifo(x)
        && levels == old(levels) + {x}
      requires Ladders()
      ensures Structured()
    {
      hide Ladders, Fifo;
      forall m | m in old(levels) ensures Fifo(m) {
        assert old(Fifo(m));
        FifoKept(m);
      }
    }

    static method OpenLevel(o: Order) returns (x: Level)
      modifies o`prev, o`next
      ensures fresh(x) && x.side == o.side && x.price == o.price && x.queue == [o] && Fifo(x)
    {
      o.next, o.prev := o, o;
      x := new Level(o);
    }

    method InstallLevel(x: Level, ghost o: Order)
      requires Structured() && o !in pool && priceIndex[PriceToIndex(o.price)] == null
      requires x !in levels && x.side == o.side && x.price == o.price && x.queue == [o] && Fifo(x)
      requires forall y :: y in pool ==> y.id != o.id
      modifies `bids, `asks, `bidLevels, `askLevels, `levels, `pool, priceIndex
      modifies levels`prev, levels`next, x`prev, x`next
      ensures Structured() && pool == old(pool) + {o} && levels == old(levels) + {x}
    {
      hide LevelNext, LevelPrev, Sorted, OrderNext, OrderPrev, IdsAscend, AllAt;
      assert forall l :: l in levels ==> l.price != o.price;
      pool := pool + {o};
      priceIndex[PriceToIndex(x.price)] := x;
      LinkIntoSide(x);
      AfterAddLevel(o);
    }

    /** The pools have a block for the order and, if its price has no level yet, one for the level, and
        neither is the last one. */
    ghost predicate HasRoom(o: Order)
      requires priceIndex.Length == MAX_PRICE_LEVELS
      reads `pool, `levels, priceIndex
    {
      |pool| + 1 < MAX_ORDER_IDS && (priceIndex[PriceToIndex(o.price)] == null ==> |levels| + 1 < MAX_PRICE_LEVELS)
    }

    lemma FreeSlotIsPlaceable(o: Order)
      requires Structured() && priceIndex[PriceToIndex(o.price)] == null
      ensures Placeable(o)
    {
    }

    lemma LevelIsLive(k: nat)
      requires Structured() && k < MAX_PRICE_LEVELS
      ensures priceIndex.Length == MAX_PRICE_LEVELS
      ensures priceIndex[k] != null ==> priceIndex[k] in levels && forall x :: x in priceIndex[k].queue ==> x in pool
    {
    }

    /** addOrder, when the slot of the price is free. */
    method AddLevelFor(o: Order)
      requires Structured() && o !in pool && priceIndex[PriceToIndex(o.price)] == null
      requires forall x :: x in pool ==> x.id != o.id
      modifies `bids, `asks, `bidLevels, `askLevels, `levels, `pool, priceIndex
      modifies levels`prev, levels`next, o`prev, o`next
      ensures Structured() && pool == old(pool) + {o} && |levels| == |old(levels)| + 1 && fresh(levels - old(levels))
    {
      hide Structured, Fifo;
      LevelIsLive(PriceToIndex(o.price));
      ghost var before := levels;
      var x := OpenLevel(o);
      OneMore(before, x);
      InstallLevel(x, o);
    }

    static lemma OneMore(a: set<Level>, x: Level)
      requires x !in a
      ensures |a + {x}| == |a| + 1
    {
    }

    /** The list surgery of addOrder; `ok` is false when the pool of levels runs out. */
    method Link(o: Order) returns (ok: bool)
      requires Structured() && o !in pool && levelBlocks == |levels| < MAX_PRICE_LEVELS
      requires forall x :: x in pool ==> x.id != o.id
      modifies `bids, `asks, `bidLevels, `askLevels, `levels, `pool, `levelBlocks
      modifies priceIndex, levels, pool`prev, pool`next, o`prev, o`next
      ensures ok <==> (old(priceIndex[PriceToIndex(o.price)]) == null ==> |old(levels)| + 1 < MAX_PRICE_LEVELS)
      ensures ok ==> (Structured() <==> old(Placeable(o)))
      ensures ok ==> pool == old(pool) + {o} && fresh(levels - old(levels)) && levelBlocks == |levels| < MAX_PRICE_LEVELS
    {
      hide Structured, Placeable, Fifo;
      LevelIsLive(PriceToIndex(o.price));
      var l := priceIndex[PriceToIndex(o.price)];
      if l == null {
        FreeSlotIsPlaceable(o);
        levelBlocks := levelBlocks + 1;
        if levelBlocks == MAX_PRICE_LEVELS {
          return false;
        }
        AddLevelFor(o);
        ok := true;
      } else {
        AppendToLevel(l, o);
        ok := true;
      }
    }

    /** An order block and addOrder; `ok` is false when a pool hands out its last block, which ends the
        process. Otherwise the order is in, and the book is sound exactly if the order was placeable. */
    method AddOrder(o: Order) returns (ok: bool)
      requires Valid() && o !in pool && o.owner !in index
      requires forall x :: x in pool ==> x.id != o.id
      modifies this, priceIndex, levels, pool`prev, pool`next, o`prev, o`next
      ensures ok <==> old(HasRoom(o))
      ensures ok ==> (Valid() <==> old(Placeable(o))) && Named()
      ensures ok ==> pool == old(pool) + {o} && fresh(levels - old(levels))
    {
      hide Structured, Placeable, Exact;
      LengthOfIndex();
      orderBlocks := orderBlocks + 1;
      if orderBlocks == MAX_ORDER_IDS {
        return false;
      }
      ExactWith(index, pool, o);
      ok := Link(o);
      index := index[o.owner := o];
    }

    lemma LengthOfIndex()
      requires Structured()
      ensures priceIndex.Length == MAX_PRICE_LEVELS
    {
    }

    constructor ()
      ensures Valid() && pool == {} && levels == {} && fresh(priceIndex)
    {
      index := map[];
      orderBlocks, levelBlocks := 0, 0;
      bids, asks := null, null;
      priceIndex := new Level?[MAX_PRICE_LEVELS](_ => null);
      bidLevels, askLevels, levels, pool := [], [], {}, {};
    }

    /** The best level of a side. */
    function Top(s: Side): Level?
      reads `bids, `asks
    {
      if s == Buy then bids else asks
    }

    /** The head of the best level is the order that price-time priority puts first. */
    lemma TopIsBest(s: Side)
      requires Structured()
      ensures Top(s) == null ==> forall x :: x in pool ==> x.side != s
      ensures Top(s) != null ==>
        var o := Top(s).first;
        && o in pool && o.side == s && Top(s) in levels
        && forall x :: x in pool && x.side == s && x != o ==>
             Better(s, o.price, x.price) || (o.price == x.price && o.id < x.id)
    {
      var ls := if s == Buy then bidLevels else askLevels;
      assert forall x :: x in pool && x.side == s ==> Home(x) in ls;
      if Top(s) != null {
        var top := ls[0];
        assert top == Top(s) && top in ls && Fifo(top);
        forall x | x in pool && x.side == s && x != top.first
          ensures Better(s, top.price, x.price) || (top.price == x.price && top.first.id < x.id)
        {
          var l := Home(x);
          var i :| 0 <= i < |ls| && ls[i] == l;
          assert Fifo(l);
        }
      }
    }

    /** The tail of a level, reached through the head's back link, is the order that arrived last. */
    lemma TailIsLast(l: Level)
      requires Structured() && l in levels
      ensures var o := l.first.prev;
        && o in pool && o.side == l.side && o.price == l.price
        && forall x :: x in pool && x.side == l.side && x.price == l.price ==> x.id <= o.id
    {
      assert Fifo(l);
      assert l.first.prev == l.queue[|l.queue| - 1];
      forall x | x in pool && x.side == l.side && x.price == l.price ensures x.id <= l.first.prev.id {
        assert x in Home(x).queue && Home(x) == l;
      }
    }

    lemma ViewAt(o: Order)
      requires Named() && o in pool
      ensures o.id in View() && View()[o.id] == o.Data()
    {
    }

    twostate lemma ViewWithout(o: Order)
      requires old(Named()) && o in old(pool) && pool == old(pool) - {o} && Named()
      requires unchanged(pool`quantity)
      ensures View() == old(View()) - {o.id}
    {
    }

    twostate lemma ViewWith(new o: Order)
      requires old(Named()) && o !in old(pool) && pool == old(pool) + {o} && Named()
      requires unchanged(old(pool)`quantity)
      ensures View() == old(View())[o.id := o.Data()]
    {
    }

    twostate lemma ViewRequantified(o: Order)
      requires old(Named()) && o in old(pool) && pool == old(pool) && Named()
      requires forall x :: x in pool && x != o ==> x.quantity == old(x.quantity)
      ensures View() == old(View())[o.id := o.Data()]
    {
    }

    /** A set is as large as the set it is the one-to-one image of. */
    static lemma {:induction false} ImageCount<T, U>(a: set<T>, f: T -> U, image: set<U>)
      requires forall x, y :: x in a && y in a && f(x) == f(y) ==> x == y
      requires (forall x :: x in a ==> f(x) in image) && (forall u :: u in image ==> exists x :: x in a && f(x) == u)
      ensures |image| == |a|
      decreases a
    {
      if a == {} {
        assert image == {};
      } else {
        var x :| x in a;
        ImageCount(a - {x}, f, image - {f(x)});
      }
    }

    lemma LevelsOfPrices()
      requires Valid()
      ensures |Prices(View())| == |levels|
    {
      hide Ladders;
      var f := (l: Level) => l.price;
      forall l | l in levels ensures f(l) in Prices(View()) {
        assert Fifo(l);
        ViewAt(l.queue[0]);
      }
      forall p | p in Prices(View()) ensures exists l :: l in levels && f(l) == p {
        var id :| id in View() && View()[id].price == p;
        var o :| o in pool && o.id == id;
        assert Home(o) in levels && f(Home(o)) == p;
      }
      assert forall l, m :: l in levels && m in levels && f(l) == f(m) ==> l == m;
      ImageCount(levels, f, Prices(View()));
    }

    lemma OrdersOfIds()
      requires Named()
      ensures |View()| == |pool|
    {
      var f := (o: Order) => o.id;
      assert |View()| == |View().Keys|;
      forall id | id in View().Keys ensures exists o :: o in pool && f(o) == id {
        var o :| o in pool && o.id == id;
        assert f(o) == id;
      }
      ImageCount(pool, f, View().Keys);
    }

    /** The blocks in use are what the outside can count: the orders, and their distinct prices. */
    lemma CountsInView()
      requires Valid()
      ensures |View()| == |pool| && |Prices(View())| == |levels| && Roomy(View())
    {
      OrdersOfIds();
      LevelsOfPrices();
    }

    /** Whether the pools have room can be told from the resting orders. */
    lemma RoomInView(o: Order)
      requires Valid()
      ensures priceIndex.Length == MAX_PRICE_LEVELS && (HasRoom(o) <==> RoomFor(View(), o.price))
    {
      LevelIsLive(PriceToIndex(o.price));
      CountsInView();
      SlotInView(PriceToIndex(o.price));
    }

    lemma SlotHoldsPrice(l: Level)
      requires Valid() && l in levels
      ensures l.first.prev != null && l.first.prev in pool && l.first.prev.price == l.price && l.first.prev.side == l.side
    {
      TailIsLast(l);
    }

    lemma SlotInView(k: nat)
      requires Valid() && k < MAX_PRICE_LEVELS
      ensures priceIndex.Length == MAX_PRICE_LEVELS
      ensures priceIndex[k] == null <==> forall id :: id in View() ==> PriceToIndex(View()[id].price) != k
    {
      hide Ladders;
      var l := priceIndex[k];
      if l != null {
        assert Fifo(l);
        ViewAt(l.queue[0]);
      }
    }

    /** A level's queue holds every live order of its side and price. */
    lemma QueueIsComplete(l: Level)
      requires Valid() && l in levels
      ensures Fifo(l)
      ensures forall x :: x in l.queue ==> x in pool && x.side == l.side && x.price == l.price
      ensures forall x :: x in pool && x.side == l.side && x.price == l.price ==> x in l.queue
    {
      assert Fifo(l);
      forall x | x in pool && x.side == l.side && x.price == l.price ensures x in l.queue {
        assert x in Home(x).queue && Home(x) == l;
      }
    }

    /** Every slot of the price index is free. */
    ghost predicate Vacant()
      reads priceIndex
    {
      forall k :: 0 <= k < priceIndex.Length ==> priceIndex[k] == null
    }

    lemma IndexTellsEmptiness()
      requires Valid()
      ensures priceIndex.Length == MAX_PRICE_LEVELS
      ensures pool == {} <==> Vacant()
    {
      if k :| 0 <= k < MAX_PRICE_LEVELS && priceIndex[k] != null {
        var l := priceIndex[k];
        QueueIsComplete(l);
        assert l.queue[0] in pool;
      }
      if o :| o in pool {
        assert priceIndex[PriceToIndex(o.price)] != null;
      }
    }

    lemma EmptyIsSound()
      requires priceIndex.Length == MAX_PRICE_LEVELS && bids == null && asks == null && index == map[]
      requires bidLevels == [] && askLevels == [] && levels == {} && pool == {} && orderBlocks == levelBlocks == 0
      ensures Valid() <==> Vacant()
      ensures Named() && View() == map[]
    {
    }

    /** The CLEAR branch of onMarketUpdate. It forgets the ladders and the order index but leaves the
        price index as it was, so the book is sound afterwards exactly if it was empty before. */
    method Clear()
      requires Valid()
      modifies `bids, `asks, `index, `orderBlocks, `levelBlocks, `bidLevels, `askLevels, `levels, `pool
      ensures bids == null && asks == null && index == map[] && pool == {} && levels == {} && View() == map[]
      ensures Valid() <==> old(pool) == {}
    {
      hide Valid, Vacant, Named, View;
      IndexTellsEmptiness();
      bids, asks, index := null, null, map[];
      orderBlocks, levelBlocks := 0, 0;
      bidLevels, askLevels, levels, pool := [], [], {}, {};
      EmptyIsSound();
    }
  }
}

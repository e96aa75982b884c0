/**
 Two sound pointer books that hold the same public orders have the same shape: the same prices in the
 same order on each side, and the same orders in the same order at each price.
 */
module Mirror {
  import opened Domain
  import opened Rings
  import opened PublicFeed
  import LevelBook

  /** Strictly ordered by rank on side `s`. */
  ghost predicate Strict(a: seq<int>, s: Side) {
    forall i, j :: 0 <= i < j < |a| ==> Better(s, a[i], a[j])
  }

  /** A strictly ordered sequence is determined by its elements. */
  lemma {:induction false} SameElements(a: seq<int>, b: seq<int>, s: Side)
    requires Strict(a, s) && Strict(b, s)
    requires (forall x :: x in a ==> x in b) && (forall x :: x in b ==> x in a)
    ensures a == b
    decreases |a|
  {
    HeadIsElement(a);
    HeadIsElement(b);
    if a != [] {
      assert a[0] in b && b[0] in a;
      SameHead(a, b, s);
      SameTail(a, b, s);
      SameTail(b, a, s);
      SameElements(a[1..], b[1..], s);
    }
  }

  lemma HeadIsElement(a: seq<int>)
    ensures |a| > 0 ==> a[0] in a
  {
  }

  lemma SameHead(a: seq<int>, b: seq<int>, s: Side)
    requires Strict(a, s) && Strict(b, s) && |a| > 0 && |b| > 0 && a[0] in b && b[0] in a
    ensures a[0] == b[0]
  {
  }

  lemma SameTail(a: seq<int>, b: seq<int>, s: Side)
    requires Strict(a, s) && |a| > 0 && |b| > 0 && a[0] == b[0] && forall x :: x in a ==> x in b
    ensures forall x :: x in a[1..] ==> x in b[1..]
  {
    forall x | x in a[1..] ensures x in b[1..] {
      var i :| 0 <= i < |a[1..]| && a[1..][i] == x;
      assert a[i + 1] == x && x in a && Better(s, a[0], x);
      var j :| 0 <= j < |b| && b[j] == x;
      assert b[1..][j - 1] == x;
    }
  }

  ghost function LevelPrices(ls: seq<Level>): seq<int> {
    seq(|ls|, i requires 0 <= i < |ls| => ls[i].price)
  }

  ghost function SideLevels(b: LevelBook.Book, s: Side): seq<Level>
    reads b
  {
    if s == Buy then b.bidLevels else b.askLevels
  }

  /** The prices of a ladder are the prices of the side's orders. */
  lemma LadderPrices(b: LevelBook.Book, s: Side)
    requires b.Valid()
    ensures Strict(LevelPrices(SideLevels(b, s)), s)
    ensures forall l :: l in SideLevels(b, s) ==> l in b.levels && l.side == s
    ensures forall x :: x in LevelPrices(SideLevels(b, s)) ==> exists id :: id in b.View() && b.View()[id].side == s && b.View()[id].price == x
    ensures forall id :: id in b.View() && b.View()[id].side == s ==> b.View()[id].price in LevelPrices(SideLevels(b, s))
  {
    var ls := SideLevels(b, s);
    assert b.Ladders();
    forall x | x in LevelPrices(ls) ensures exists id :: id in b.View() && b.View()[id].side == s && b.View()[id].price == x {
      var i :| 0 <= i < |ls| && ls[i].price == x;
      assert ls[i] in ls;
      b.QueueIsComplete(ls[i]);
      var o := ls[i].queue[0];
      b.ViewAt(o);
      assert o.id in b.View() && b.View()[o.id].side == s && b.View()[o.id].price == x;
    }
    forall id | id in b.View() && b.View()[id].side == s ensures b.View()[id].price in LevelPrices(ls) {
      var o :| o in b.pool && o.id == id;
      var l := b.Home(o);
      var i :| 0 <= i < |ls| && ls[i] == l;
      assert LevelPrices(ls)[i] == o.price;
    }
  }

  /** The ids of a level's queue are the ids of the orders at its price. */
  lemma QueueIds(b: LevelBook.Book, l: Level)
    requires b.Valid() && l in b.levels
    ensures Strict(Ids(l.queue), Sell)
    ensures forall x :: x in Ids(l.queue) ==> x in b.View() && b.View()[x].side == l.side && b.View()[x].price == l.price
    ensures forall x :: x in b.View() && b.View()[x].side == l.side && b.View()[x].price == l.price ==> x in Ids(l.queue)
  {
    hide LevelBook.Book.Structured;
    b.QueueIsComplete(l);
    var q := l.queue;
    forall x | x in Ids(q) ensures x in b.View() && b.View()[x].side == l.side && b.View()[x].price == l.price {
      var i :| 0 <= i < |q| && q[i].id == x;
      assert q[i] in q;
      b.ViewAt(q[i]);
    }
    forall x | x in b.View() && b.View()[x].side == l.side && b.View()[x].price == l.price ensures x in Ids(q) {
      var o :| o in b.pool && o.id == x;
      var i :| 0 <= i < |q| && q[i] == o;
      assert Ids(q)[i] == x;
    }
  }

  /** Two queues hold the same orders in the same order, with the same quantities and priorities. */
  ghost predicate SameQueue(q: seq<Order>, r: seq<Order>)
    reads q`quantity, r`quantity
  {
    && Ids(q) == Ids(r) && |q| == |r|
    && forall i :: 0 <= i < |q| ==> q[i].quantity == r[i].quantity && q[i].priority == r[i].priority
  }

  /** Book `c` mirrors book `e` on side `s`, down to the order within each level. */
  ghost predicate Mirrors(e: LevelBook.Book, c: LevelBook.Book, s: Side)
    reads *
  {
    && LevelPrices(SideLevels(e, s)) == LevelPrices(SideLevels(c, s)) && |SideLevels(e, s)| == |SideLevels(c, s)|
    && forall i :: 0 <= i < |SideLevels(e, s)| ==> SameQueue(SideLevels(e, s)[i].queue, SideLevels(c, s)[i].queue)
  }

  /** Orders of equal ids have equal quantities and priorities in both books. */
  lemma SameOrders(e: LevelBook.Book, c: LevelBook.Book, l: Level, k: Level)
    requires e.Valid() && c.Valid() && c.View() == Publish(e.View())
    requires l in e.levels && k in c.levels && Ids(l.queue) == Ids(k.queue)
    ensures SameQueue(l.queue, k.queue)
  {
    hide LevelBook.Book.Structured, LevelBook.Book.View;
    e.QueueIsComplete(l);
    c.QueueIsComplete(k);
    forall i | 0 <= i < |l.queue|
      ensures |k.queue| == |l.queue| && l.queue[i].quantity == k.queue[i].quantity && l.queue[i].priority == k.queue[i].priority
    {
      assert Ids(l.queue)[i] == Ids(k.queue)[i];
      e.ViewAt(l.queue[i]);
      c.ViewAt(k.queue[i]);
    }
    assert |Ids(l.queue)| == |Ids(k.queue)|;
  }

  /** A client's book with the public orders of the exchange's book mirrors it. */
  lemma SameShape(e: LevelBook.Book, c: LevelBook.Book, s: Side)
    requires e.Valid() && c.Valid() && c.View() == Publish(e.View())
    ensures Mirrors(e, c, s)
  {
    hide LevelBook.Book.Valid, LevelBook.Book.View;
    LadderPrices(e, s);
    LadderPrices(c, s);
    forall x | x in LevelPrices(SideLevels(e, s)) ensures x in LevelPrices(SideLevels(c, s)) {
      var id :| id in e.View() && e.View()[id].side == s && e.View()[id].price == x;
      assert id in c.View() && c.View()[id].side == s && c.View()[id].price == x;
    }
    forall x | x in LevelPrices(SideLevels(c, s)) ensures x in LevelPrices(SideLevels(e, s)) {
      var id :| id in c.View() && c.View()[id].side == s && c.View()[id].price == x;
      assert id in e.View() && e.View()[id].side == s && e.View()[id].price == x;
    }
    SameElements(LevelPrices(SideLevels(e, s)), LevelPrices(SideLevels(c, s)), s);
    assert |LevelPrices(SideLevels(e, s))| == |LevelPrices(SideLevels(c, s))|;
    forall i | 0 <= i < |SideLevels(e, s)| ensures SameQueue(SideLevels(e, s)[i].queue, SideLevels(c, s)[i].queue) {
      var l, k := SideLevels(e, s)[i], SideLevels(c, s)[i];
      assert l in SideLevels(e, s) && k in SideLevels(c, s);
      assert LevelPrices(SideLevels(e, s))[i] == l.price && LevelPrices(SideLevels(c, s))[i] == k.price;
      QueueIds(e, l);
      QueueIds(c, k);
      SameElements(Ids(l.queue), Ids(k.queue), Sell);
      SameOrders(e, c, l, k);
    }
  }
}

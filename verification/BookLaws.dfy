/**
 What the exchange promises about its book, for every book and every run of requests: the book is
 never crossed, the responses are an exact account of every order, and the public updates are an
 exact account of the book.
 */
module BookLaws {
  import opened Domain
  import opened Messages
  import opened PriceTime

  // ----- The invariant

  ghost predicate Sane(b: Book) {
    forall id :: id in b.orders ==>
      && id < b.nextId && b.orders[id].quantity > 0 && b.orders[id].owner.Owner?
      && b.orders[id].owner.client < MAX_CLIENTS && b.orders[id].owner.orderId < MAX_ORDER_IDS
  }

  ghost predicate UniqueOwners(o: Orders) {
    forall i, j :: i in o && j in o && o[i].owner == o[j].owner ==> i == j
  }

  /** Every bid is below every ask. */
  ghost predicate Uncrossed(o: Orders) {
    forall i, j :: i in o && j in o && o[i].side == Buy && o[j].side == Sell ==> o[i].price < o[j].price
  }

  /** Along a price level, later orders have higher priority numbers. */
  ghost predicate PrioritiesAscend(o: Orders) {
    forall i, j :: i in o && j in o && o[i].side == o[j].side && o[i].price == o[j].price && i < j ==>
      o[i].priority < o[j].priority
  }

  /** No two live prices share an index slot. */
  ghost predicate SlotsApart(o: Orders) {
    forall i, j :: i in o && j in o && PriceToIndex(o[i].price) == PriceToIndex(o[j].price) ==> o[i].price == o[j].price
  }

  ghost predicate WellFormed(b: Book) {
    && Sane(b) && UniqueOwners(b.orders) && Uncrossed(b.orders)
    && PrioritiesAscend(b.orders) && SlotsApart(b.orders)
  }

  /** `n` is `o` after trades: orders may be gone or smaller, and side `s` is untouched. */
  ghost predicate Shrunk(o: Orders, n: Orders, s: Side) {
    && (forall id :: id in n ==> id in o && 0 < n[id].quantity <= o[id].quantity && n[id] == o[id].(quantity := n[id].quantity))
    && (forall id :: id in o && o[id].side == s ==> id in n && n[id] == o[id])
  }

  lemma FillShrinks(o: Orders, t: Taker, id: nat, leaves: nat)
    requires id in o && o[id].side == Opposite(t.side) && Owned(o) && t.owner.Owner?
    requires forall k :: k in o ==> o[k].quantity > 0
    ensures Shrunk(o, Fill(o, t, id, leaves).orders, t.side)
  {
  }

  lemma ShrunkIsTransitive(o: Orders, m: Orders, n: Orders, s: Side)
    requires Shrunk(o, m, s) && Shrunk(m, n, s)
    ensures Shrunk(o, n, s)
  {
  }

  lemma {:induction false} MatchShrinks(o: Orders, t: Taker, leaves: nat)
    requires Owned(o) && t.owner.Owner? && forall id :: id in o ==> o[id].quantity > 0
    ensures Shrunk(o, Match(o, t, leaves).orders, t.side)
    decreases |o|, leaves
  {
    var best := Best(o, Opposite(t.side));
    if leaves > 0 && best.Some? && Crosses(t, o[best.value].price) {
      var f := Fill(o, t, best.value, leaves);
      FillShrinks(o, t, best.value, leaves);
      MatchShrinks(f.orders, t, f.leaves);
      ShrunkIsTransitive(o, f.orders, Match(f.orders, t, f.leaves).orders, t.side);
    }
  }

  lemma ShrunkStaysWellFormed(b: Book, n: Orders, s: Side)
    requires WellFormed(b) && Shrunk(b.orders, n, s)
    ensures WellFormed(b.(orders := n))
  {
  }

  lemma NextPriorityIsAbove(o: Orders, s: Side, price: int, id: nat)
    requires PrioritiesAscend(o) && id in o && o[id].side == s && o[id].price == price
    ensures o[id].priority < NextPriority(o, s, price)
  {
    LastExists(o, s, price, id);
  }

  lemma {:induction false} LastExists(o: Orders, s: Side, price: int, id: nat)
    requires id in o && o[id].side == s && o[id].price == price
    ensures exists k :: IsLast(o, s, price, k)
    decreases |o|
  {
    var rest := o - {id};
    assert forall k :: k in o && k != id ==> k in rest && rest[k] == o[k];
    if k :| k in rest && rest[k].side == s && rest[k].price == price {
      LastExists(rest, s, price, k);
      var l: nat :| IsLast(rest, s, price, l);
      assert IsLast(o, s, price, if l < id then id else l);
    } else {
      assert IsLast(o, s, price, id);
    }
  }

  lemma RestingStaysWellFormed(b: Book, owner: Owner, side: Side, price: int, quantity: nat)
    requires WellFormed(b) && quantity > 0 && owner.Owner?
    requires Admissible(b, NewOrder(owner.client, owner.orderId, side, price, quantity))
    requires Exhausted(b.orders, Taker(b.ticker, owner, b.nextId, side, price))
    ensures var r := Resting(owner, side, price, quantity, NextPriority(b.orders, side, price));
      WellFormed(Book(b.ticker, b.orders[b.nextId := r], b.nextId + 1))
  {
    forall id | id in b.orders && b.orders[id].side == side && b.orders[id].price == price
      ensures b.orders[id].priority < NextPriority(b.orders, side, price)
    {
      NextPriorityIsAbove(b.orders, side, price, id);
    }
  }

  lemma SubmitKeepsWellFormed(b: Book, owner: Owner, side: Side, price: int, quantity: nat)
    requires WellFormed(b) && owner.Owner? && Admissible(b, NewOrder(owner.client, owner.orderId, side, price, quantity))
    ensures WellFormed(Submit(b, owner, side, price, quantity).book)
  {
    hide Match, NextPriority, Uncrossed, PrioritiesAscend, SlotsApart, UniqueOwners, Exhausted;
    var t := Taker(b.ticker, owner, b.nextId, side, price);
    var m := Match(b.orders, t, quantity);
    MatchShrinks(b.orders, t, quantity);
    MatchIsComplete(b.orders, t, quantity);
    var b' := b.(orders := m.orders);
    ShrunkStaysWellFormed(b, m.orders, side);
    if m.leaves > 0 {
      assert t == Taker(b'.ticker, owner, b'.nextId, side, price);
      assert Admissible(b', NewOrder(owner.client, owner.orderId, side, price, m.leaves));
      RestingStaysWellFormed(b', owner, side, price, m.leaves);
    } else {
      assert WellFormed(b'.(nextId := b.nextId + 1));
    }
  }

  /** Every admissible request keeps the book well formed; in particular it is never left crossed. */
  lemma ProcessKeepsWellFormed(b: Book, r: Request)
    requires WellFormed(b) && Admissible(b, r)
    ensures WellFormed(Process(b, r).book)
  {
    match r
    case NewOrder(client, orderId, side, price, quantity) =>
      SubmitKeepsWellFormed(b, Owner(client, orderId), side, price, quantity);
    case CancelOrder(client, orderId) =>
  }

  // ----- The responses account for every order

  /** `l` holds the side and open quantity of every resting order, and nothing else. */
  ghost predicate IsLedger(o: Orders, l: Ledger) {
    && (forall id :: id in o ==> o[id].owner in l && l[o[id].owner] == Open(o[id].side, o[id].quantity))
    && (forall k :: k in l ==> exists id :: OwnedBy(o, k, id))
  }

  ghost function LedgerOf(o: Orders): (l: Ledger)
    requires UniqueOwners(o)
    ensures IsLedger(o, l)
  {
    var owners := set id | id in o :: o[id].owner;
    assert forall id :: id in o ==> OwnedBy(o, o[id].owner, id);
    map k | k in owners :: var id :| OwnedBy(o, k, id); Open(o[id].side, o[id].quantity)
  }

  lemma LedgerIs(o: Orders, l: Ledger)
    requires UniqueOwners(o) && IsLedger(o, l)
    ensures l == LedgerOf(o)
  {
    hide LedgerOf;
  }

  lemma LedgerWithout(o: Orders, id: nat)
    requires UniqueOwners(o) && id in o
    ensures UniqueOwners(o - {id}) && LedgerOf(o - {id}) == LedgerOf(o) - {o[id].owner}
  {
    hide LedgerOf;
    var l, n := LedgerOf(o) - {o[id].owner}, o - {id};
    forall k | k in l ensures exists j :: OwnedBy(n, k, j) {
      var j :| OwnedBy(o, k, j);
      assert OwnedBy(n, k, j);
    }
    LedgerIs(n, l);
  }

  lemma LedgerRequantified(o: Orders, id: nat, q: nat)
    requires UniqueOwners(o) && id in o
    ensures var n := o[id := o[id].(quantity := q)];
      UniqueOwners(n) && LedgerOf(n) == LedgerOf(o)[o[id].owner := Open(o[id].side, q)]
  {
    hide LedgerOf;
    var n, l := o[id := o[id].(quantity := q)], LedgerOf(o)[o[id].owner := Open(o[id].side, q)];
    forall k | k in l ensures exists j :: OwnedBy(n, k, j) {
      var j :| OwnedBy(o, k, j);
      assert OwnedBy(n, k, j);
    }
    LedgerIs(n, l);
  }

  lemma LedgerWith(o: Orders, id: nat, r: Resting)
    requires UniqueOwners(o) && id !in o && forall k :: k in o ==> o[k].owner != r.owner
    ensures UniqueOwners(o[id := r]) && LedgerOf(o[id := r]) == LedgerOf(o)[r.owner := Open(r.side, r.quantity)]
  {
    hide LedgerOf;
    var n, l := o[id := r], LedgerOf(o)[r.owner := Open(r.side, r.quantity)];
    forall k | k in l ensures exists j :: OwnedBy(n, k, j) {
      if k == r.owner {
        assert OwnedBy(n, k, id);
      } else {
        var j :| OwnedBy(o, k, j);
        assert OwnedBy(n, k, j);
      }
    }
    LedgerIs(n, l);
  }

  lemma PutTwice(l: Ledger, k: Owner, s: Side, q: nat, r: nat)
    ensures Put(Put(l, k, s, q), k, s, r) == Put(l, k, s, r)
  {
  }

  lemma PutApart(l: Ledger, k: Owner, s: Side, q: nat, k': Owner, s': Side, q': nat)
    requires k != k'
    ensures Put(Put(l, k, s, q), k', s', q') == Put(Put(l, k', s', q'), k, s, q)
  {
  }

  lemma LedgerAfterFill(o: Orders, t: Taker, id: nat, leaves: nat)
    requires Owned(o) && UniqueOwners(o) && t.owner.Owner? && id in o
    ensures var f := Fill(o, t, id, leaves);
      && UniqueOwners(f.orders)
      && LedgerOf(f.orders) == Put(LedgerOf(o), o[id].owner, o[id].side, o[id].quantity - Min(o[id].quantity, leaves))
  {
    hide LedgerOf, UniqueOwners, IsLedger;
    LedgerWithout(o, id);
    LedgerRequantified(o, id, o[id].quantity - Min(o[id].quantity, leaves));
  }

  /** The two fills of a trade are booked against the taker and against the resting order. */
  lemma FillAccounts(o: Orders, t: Taker, id: nat, leaves: nat)
    requires Owned(o) && UniqueOwners(o) && t.owner.Owner? && id in o && leaves > 0 && o[id].quantity > 0
    requires forall k :: k in o ==> o[k].owner != t.owner
    ensures var f := Fill(o, t, id, leaves);
      && UniqueOwners(f.orders)
      && Accounts(Put(LedgerOf(o), t.owner, t.side, leaves), f.responses, Put(LedgerOf(f.orders), t.owner, t.side, f.leaves))
  {
    hide LedgerOf, UniqueOwners;
    var f := Fill(o, t, id, leaves);
    LedgerAfterFill(o, t, id, leaves);
    TwoFillsAccount(LedgerOf(o), t.owner, t.side, leaves, o[id].owner, o[id].side, o[id].quantity, f.responses);
  }

  lemma TwoFillsAccount(
      l: Ledger, mine: Owner, s: Side, leaves: nat, theirs: Owner, s': Side, quantity: nat, rs: seq<Response>)
    requires mine != theirs && theirs in l && l[theirs] == Open(s', quantity) && leaves > 0 && quantity > 0
    requires |rs| == 2 && rs[0].kind == rs[1].kind == Filled && About(rs[0]) == mine && About(rs[1]) == theirs
    requires rs[0].side == Some(s) && rs[1].side == Some(s') && rs[0].executed == rs[1].executed == Min(quantity, leaves)
    requires rs[0].leaves == leaves - Min(quantity, leaves) && rs[1].leaves == quantity - Min(quantity, leaves)
    ensures Accounts(Put(l, mine, s, leaves), rs, Put(Put(l, theirs, s', rs[1].leaves), mine, s, rs[0].leaves))
  {
    PutTwice(l, mine, s, leaves, rs[0].leaves);
    PutApart(l, mine, s, rs[0].leaves, theirs, s', rs[1].leaves);
    AccountsTwo(Put(l, mine, s, leaves), rs);
  }

  lemma AccountsTwo(l: Ledger, rs: seq<Response>)
    requires |rs| == 2 && Account(l, rs[0]).Some? && Account(Account(l, rs[0]).value, rs[1]).Some?
    ensures Accounts(l, rs, Account(Account(l, rs[0]).value, rs[1]).value)
  {
    assert rs[1..] == [rs[1]];
  }

  /** The responses of a whole matching take the taker from `leaves` to what is left of it. */
  lemma {:induction false} MatchAccounts(o: Orders, t: Taker, leaves: nat)
    requires Owned(o) && UniqueOwners(o) && t.owner.Owner?
    requires forall k :: k in o ==> o[k].owner != t.owner && o[k].quantity > 0
    ensures var m := Match(o, t, leaves);
      && UniqueOwners(m.orders)
      && Accounts(Put(LedgerOf(o), t.owner, t.side, leaves), m.responses, Put(LedgerOf(m.orders), t.owner, t.side, m.leaves))
    decreases |o|, leaves
  {
    hide LedgerOf, UniqueOwners, IsLedger, Put, Accounts;
    var best := Best(o, Opposite(t.side));
    if leaves > 0 && best.Some? && Crosses(t, o[best.value].price) {
      var f := Fill(o, t, best.value, leaves);
      FillAccounts(o, t, best.value, leaves);
      MatchAccounts(f.orders, t, f.leaves);
      var m := Match(f.orders, t, f.leaves);
      AccountsConcat(
        Put(LedgerOf(o), t.owner, t.side, leaves), f.responses,
        Put(LedgerOf(f.orders), t.owner, t.side, f.leaves), m.responses,
        Put(LedgerOf(m.orders), t.owner, t.side, m.leaves));
    } else {
      AccountsNothing(Put(LedgerOf(o), t.owner, t.side, leaves));
    }
  }

  lemma AccountsNothing(l: Ledger)
    ensures Accounts(l, [], l)
  {
  }

  lemma StrangerHasNoEntry(o: Orders, k: Owner)
    requires UniqueOwners(o) && forall id :: id in o ==> o[id].owner != k
    ensures k !in LedgerOf(o) && Put(LedgerOf(o), k, Buy, 0) == Put(LedgerOf(o), k, Sell, 0) == LedgerOf(o)
  {
    hide LedgerOf;
    assert forall id :: !OwnedBy(o, k, id);
  }

  lemma AcceptedAccounts(l: Ledger, r: Response, rs: seq<Response>, l': Ledger)
    requires r.kind == Accepted && About(r) !in l && r.side.Some? && r.executed == 0
    requires Accounts(Put(l, About(r), r.side.value, r.leaves), rs, l')
    ensures Accounts(l, [r] + rs, l')
  {
    hide Put;
    assert ([r] + rs)[1..] == rs;
  }

  lemma SubmitAccounts(b: Book, owner: Owner, side: Side, price: int, quantity: nat)
    requires WellFormed(b) && owner.Owner? && Admissible(b, NewOrder(owner.client, owner.orderId, side, price, quantity))
    ensures var s := Submit(b, owner, side, price, quantity);
      UniqueOwners(s.book.orders) && Accounts(LedgerOf(b.orders), s.responses, LedgerOf(s.book.orders))
  {
    hide LedgerOf, IsLedger, Accounts, UniqueOwners, Match, NextPriority, Uncrossed, PrioritiesAscend, SlotsApart;
    var t := Taker(b.ticker, owner, b.nextId, side, price);
    var s := Submit(b, owner, side, price, quantity);
    var m := Match(b.orders, t, quantity);
    MatchAccounts(b.orders, t, quantity);
    MatchShrinks(b.orders, t, quantity);
    StrangerHasNoEntry(b.orders, owner);
    StrangerHasNoEntry(m.orders, owner);
    if m.leaves > 0 {
      LedgerWith(m.orders, t.id, Resting(owner, side, price, m.leaves, NextPriority(m.orders, side, price)));
    }
    AcceptedAccounts(LedgerOf(b.orders), s.responses[0], m.responses, LedgerOf(s.book.orders));
  }

  lemma WithdrawAccounts(b: Book, owner: Owner)
    requires WellFormed(b) && owner.Owner?
    ensures var s := Withdraw(b, owner);
      UniqueOwners(s.book.orders) && Accounts(LedgerOf(b.orders), s.responses, LedgerOf(s.book.orders))
  {
    hide LedgerOf;
    var s := Withdraw(b, owner);
    var l := LedgerOf(b.orders);
    assert s.responses[1..] == [];
    if id :| OwnedBy(b.orders, owner, id) {
      LedgerWithout(b.orders, id);
      assert Account(l, s.responses[0]) == Some(l - {owner});
    } else {
      assert owner !in l;
    }
  }

  /** The responses to a request are exactly the change in every order's open quantity: each fill
      takes what it executed, each cancellation what was open, and nothing else changes. */
  lemma ProcessAccounts(b: Book, r: Request)
    requires WellFormed(b) && Admissible(b, r)
    ensures var s := Process(b, r);
      UniqueOwners(s.book.orders) && Accounts(LedgerOf(b.orders), s.responses, LedgerOf(s.book.orders))
  {
    hide LedgerOf, UniqueOwners, IsLedger, Accounts, Submit, Withdraw, Uncrossed, PrioritiesAscend, SlotsApart;
    match r
    case NewOrder(client, orderId, side, price, quantity) =>
      SubmitAccounts(b, Owner(client, orderId), side, price, quantity);
    case CancelOrder(client, orderId) =>
      WithdrawAccounts(b, Owner(client, orderId));
  }

  // ----- Trades have two ends

  /** Responses come in pairs, the taker's first: two fills of the same positive quantity at the same
      price, on opposite sides, at a price the taker accepts. */
  ghost predicate Paired(rs: seq<Response>, t: Taker) {
    if rs == [] then true
    else
      && |rs| >= 2 && rs[0].kind == rs[1].kind == Filled && About(rs[0]) == t.owner
      && rs[0].executed == rs[1].executed > 0 && rs[0].price == rs[1].price && Crosses(t, rs[0].price)
      && rs[0].side == Some(t.side) && rs[1].side == Some(Opposite(t.side))
      && Paired(rs[2..], t)
  }

  lemma {:induction false} MatchIsPaired(o: Orders, t: Taker, leaves: nat)
    requires Owned(o) && t.owner.Owner? && forall k :: k in o ==> o[k].quantity > 0
    ensures Paired(Match(o, t, leaves).responses, t)
    decreases |o|, leaves
  {
    var best := Best(o, Opposite(t.side));
    if leaves > 0 && best.Some? && Crosses(t, o[best.value].price) {
      var f := Fill(o, t, best.value, leaves);
      MatchIsPaired(f.orders, t, f.leaves);
      var rs := f.responses + Match(f.orders, t, f.leaves).responses;
      assert rs[2..] == Match(f.orders, t, f.leaves).responses;
    }
  }
}

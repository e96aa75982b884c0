/**
 One client's share of the exchange's account: the responses addressed to it and its own open orders.
 */
module ClientAccount {
  import opened Domain
  import opened Messages
  import opened PriceTime

  /** The responses about orders of client `c`. */
  function Mine(rs: seq<Response>, c: nat): seq<Response> {
    if rs == [] then []
    else (if About(rs[0]).client == c then [rs[0]] else []) + Mine(rs[1..], c)
  }

  predicate Belongs(k: Owner, c: nat) {
    k.Owner? && k.client == c
  }

  function Restrict(l: Ledger, c: nat): Ledger {
    map k | k in l && Belongs(k, c) :: l[k]
  }

  lemma AccountRestricts(l: Ledger, r: Response, c: nat)
    requires Account(l, r).Some?
    ensures About(r).client == c ==> Account(Restrict(l, c), r) == Some(Restrict(Account(l, r).value, c))
    ensures About(r).client != c ==> Restrict(Account(l, r).value, c) == Restrict(l, c)
  {
    var k := About(r);
    var l' := Account(l, r).value;
    if k.client == c {
      assert k in l ==> Restrict(l, c)[k] == l[k];
      assert Restrict(l - {k}, c) == Restrict(l, c) - {k};
      if k in l' {
        assert Restrict(l', c) == Restrict(l, c)[k := l'[k]];
      }
    } else {
      assert Restrict(l', c) == Restrict(l, c);
    }
  }

  /** The responses addressed to a client account for that client's orders by themselves. */
  lemma {:induction false} AccountsRestrict(l: Ledger, rs: seq<Response>, l': Ledger, c: nat)
    requires Accounts(l, rs, l')
    ensures Accounts(Restrict(l, c), Mine(rs, c), Restrict(l', c))
    decreases rs
  {
    if rs != [] {
      hide Restrict, Account;
      AccountRestricts(l, rs[0], c);
      AccountsRestrict(Account(l, rs[0]).value, rs[1..], l', c);
      if About(rs[0]).client == c {
        assert Mine(rs, c)[1..] == Mine(rs[1..], c);
      } else {
        assert Mine(rs, c) == Mine(rs[1..], c);
      }
    }
  }

  /** The acknowledgements of new orders on side `s`. */
  function Accepts(rs: seq<Response>, s: Side): seq<Response> {
    if rs == [] then []
    else if rs[0].kind == Accepted && rs[0].side == Some(s) then [rs[0]] + Accepts(rs[1..], s)
    else Accepts(rs[1..], s)
  }

  lemma AcceptsStep(r: Response, rs: seq<Response>, s: Side)
    ensures Accepts([r] + rs, s) == if r.kind == Accepted && r.side == Some(s) then [r] + Accepts(rs, s) else Accepts(rs, s)
  {
    assert ([r] + rs)[1..] == rs;
  }

  lemma {:induction false} AcceptsConcat(rs: seq<Response>, ss: seq<Response>, s: Side)
    ensures Accepts(rs + ss, s) == Accepts(rs, s) + Accepts(ss, s)
    decreases rs
  {
    hide Accepts;
    if rs == [] {
      assert rs + ss == ss;
      AcceptsNone(s);
      assert [] + Accepts(ss, s) == Accepts(ss, s);
    } else {
      var rest := rs[1..];
      AcceptsConcat(rest, ss, s);
      AcceptsStep(rs[0], rest, s);
      AcceptsStep(rs[0], rest + ss, s);
      assert rs == [rs[0]] + rest;
      assert rs + ss == [rs[0]] + (rest + ss);
      Regroup([rs[0]], Accepts(rest, s), Accepts(ss, s));
    }
  }

  lemma AcceptsNone(s: Side)
    ensures Accepts([], s) == []
  {
  }

  lemma Regroup(a: seq<Response>, b: seq<Response>, c: seq<Response>)
    ensures a + (b + c) == a + b + c
  {
  }

  lemma {:induction false} AcceptIsListed(rs: seq<Response>, i: nat, s: Side)
    requires i < |rs| && rs[i].kind == Accepted && rs[i].side == Some(s)
    ensures rs[i] in Accepts(rs, s)
    decreases rs
  {
    if i > 0 {
      AcceptIsListed(rs[1..], i - 1, s);
    }
  }

  /** `r` ends the life of order `k`. */
  predicate Ends(r: Response, k: Owner) {
    About(r) == k && (r.kind == Cancelled || (r.kind == Filled && r.leaves == 0))
  }

  /** An order enters the account only by an acknowledgement. */
  lemma {:induction false} OpenedByAccept(l: Ledger, rs: seq<Response>, l': Ledger, k: Owner)
    requires Accounts(l, rs, l') && k !in l && k in l'
    ensures exists i :: 0 <= i < |rs| && rs[i].kind == Accepted && About(rs[i]) == k && rs[i].side.Some?
    decreases rs
  {
    if rs != [] {
      var m := Account(l, rs[0]).value;
      if k !in m {
        OpenedByAccept(m, rs[1..], l', k);
        var i :| 0 <= i < |rs[1..]| && rs[1..][i].kind == Accepted && About(rs[1..][i]) == k && rs[1..][i].side.Some?;
        assert rs[i + 1] == rs[1..][i];
      }
    }
  }

  /** An order leaves the account only by a cancellation or a last fill. */
  lemma {:induction false} ClosedByEnd(l: Ledger, rs: seq<Response>, l': Ledger, k: Owner)
    requires Accounts(l, rs, l') && k in l && k !in l'
    ensures exists i :: 0 <= i < |rs| && Ends(rs[i], k)
    decreases rs
  {
    if rs != [] {
      var m := Account(l, rs[0]).value;
      if k in m {
        ClosedByEnd(m, rs[1..], l', k);
        var i :| 0 <= i < |rs[1..]| && Ends(rs[1..][i], k);
        assert rs[i + 1] == rs[1..][i];
      } else {
        assert Ends(rs[0], k);
      }
    }
  }

  /** On side `s` the account knows of no order but `k`. */
  ghost predicate Only(l: Ledger, s: Side, k: Owner) {
    forall j :: j in l && l[j].side == s ==> j == k
  }

  /** If neither the account nor an acknowledgement brings in another order of a side, then every
      response of that side is about the one order there is. */
  lemma {:induction false} ResponsesAreAbout(l: Ledger, rs: seq<Response>, l': Ledger, s: Side, k: Owner)
    requires Accounts(l, rs, l') && Only(l, s, k)
    requires forall r :: r in Accepts(rs, s) ==> About(r) == k
    ensures forall i :: 0 <= i < |rs| && rs[i].side == Some(s) ==> About(rs[i]) == k
    ensures Only(l', s, k)
    decreases rs
  {
    if rs != [] {
      ResponsesAreAbout(Account(l, rs[0]).value, rs[1..], l', s, k);
      assert forall i :: 0 < i < |rs| ==> rs[i] == rs[1..][i - 1];
    }
  }

  /** No order of side `s` is open. */
  ghost predicate Quiet(l: Ledger, s: Side) {
    forall j :: j in l ==> l[j].side != s
  }

  /** With no order open and none being acknowledged, no response of that side is under way. */
  lemma {:induction false} QuietStaysQuiet(l: Ledger, rs: seq<Response>, l': Ledger, s: Side)
    requires Accounts(l, rs, l') && Quiet(l, s) && Accepts(rs, s) == []
    ensures forall i :: 0 <= i < |rs| ==> rs[i].side != Some(s)
    ensures Quiet(l', s)
    decreases rs
  {
    if rs != [] {
      QuietStaysQuiet(Account(l, rs[0]).value, rs[1..], l', s);
      assert forall i :: 0 < i < |rs| ==> rs[i] == rs[1..][i - 1];
    }
  }

  // ----- What the exchange sends to one client

  lemma {:induction false} MatchOnlyFills(o: Orders, t: Taker, leaves: nat)
    requires Owned(o) && t.owner.Owner?
    ensures forall r :: r in Match(o, t, leaves).responses ==> r.kind == Filled
    decreases |o|, leaves
  {
    var best := Best(o, Opposite(t.side));
    if leaves > 0 && best.Some? && Crosses(t, o[best.value].price) {
      var f := Fill(o, t, best.value, leaves);
      MatchOnlyFills(f.orders, t, f.leaves);
    }
  }

  lemma {:induction false} NoAccepts(rs: seq<Response>, c: nat, s: Side)
    requires forall r :: r in rs ==> r.kind != Accepted
    ensures Accepts(Mine(rs, c), s) == []
    decreases rs
  {
    if rs != [] {
      NoAccepts(rs[1..], c, s);
      AcceptsConcat(if About(rs[0]).client == c then [rs[0]] else [], Mine(rs[1..], c), s);
    }
  }

  /** The acknowledgements client `c` gets for a request: the one of its own new order, if it is that. */
  lemma ProcessAccepts(b: Book, r: Request, c: nat, s: Side)
    requires Owned(b.orders)
    ensures var acks := Accepts(Mine(Process(b, r).responses, c), s);
      if r.NewOrder? && r.client == c && r.side == s then
        |acks| == 1 && About(acks[0]) == Owner(c, r.orderId) && acks[0].leaves == r.quantity
      else acks == []
  {
    hide Match, NextPriority, Best;
    match r
    case NewOrder(client, orderId, side, price, quantity) =>
      var t := Taker(b.ticker, Owner(client, orderId), b.nextId, side, price);
      var fills := Match(b.orders, t, quantity).responses;
      MatchOnlyFills(b.orders, t, quantity);
      NoAccepts(fills, c, s);
      var rs := Process(b, r).responses;
      assert rs[1..] == fills;
      AcceptsConcat(if client == c then [rs[0]] else [], Mine(fills, c), s);
    case CancelOrder(_, _) =>
      NoAccepts(Process(b, r).responses, c, s);
  }
}

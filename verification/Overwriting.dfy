/**
 When two different markets become the same market under the same updates: order by order, what the
 updates overwrite does not matter, and what they leave alone must agree already.
 */
module Overwriting {
  import opened Domain
  import opened Messages
  import opened MarketData

  /** Two markets have the same order under this ticker and id, or both have none. */
  predicate Same(m: Market, n: Market, t: nat, id: nat)
    requires t < MAX_TICKERS
  {
    (id in m[t] <==> id in n[t]) && (id in m[t] ==> m[t][id] == n[t][id])
  }

  /** The same, the quantity left aside. */
  predicate SameButQuantity(m: Market, n: Market, t: nat, id: nat)
    requires t < MAX_TICKERS
  {
    (id in m[t] <==> id in n[t]) && (id in m[t] ==> m[t][id].(quantity := 0) == n[t][id].(quantity := 0))
  }

  predicate Names(u: Update, t: nat, id: nat) {
    Trades(u) && u.ticker == t && u.id == id
  }

  /** Some update adds or cancels the order. */
  predicate Replaced(us: seq<Update>, t: nat, id: nat) {
    exists u :: u in us && Names(u, t, id) && !u.Modify?
  }

  /** Some update settles the order's quantity. */
  predicate Modified(us: seq<Update>, t: nat, id: nat) {
    exists u :: u in us && Names(u, t, id) && u.Modify?
  }

  /** Order by order: the updates add or cancel it, or they modify it and the markets agree on all but its
      quantity, or they leave it alone and the markets agree on it. */
  predicate Reconciled(m: Market, n: Market, us: seq<Update>, t: nat, id: nat)
    requires t < MAX_TICKERS
  {
    Replaced(us, t, id) || (if Modified(us, t, id) then SameButQuantity(m, n, t, id) else Same(m, n, t, id))
  }

  ghost predicate AllReconciled(m: Market, n: Market, us: seq<Update>) {
    forall t: nat, id: nat :: t < MAX_TICKERS ==> Reconciled(m, n, us, t, id)
  }

  lemma FirstOrRest(us: seq<Update>, t: nat, id: nat)
    requires us != []
    ensures Replaced(us, t, id) <==> (Names(us[0], t, id) && !us[0].Modify?) || Replaced(us[1..], t, id)
    ensures Modified(us, t, id) <==> (Names(us[0], t, id) && us[0].Modify?) || Modified(us[1..], t, id)
  {
    assert us == [us[0]] + us[1..];
  }

  /** What one update makes of the comparison. */
  lemma OneStep(m: Market, n: Market, u: Update, t: nat, id: nat)
    requires t < MAX_TICKERS && Trades(u) && u.ticker < MAX_TICKERS
    ensures var m', n' := ApplyAt(m, u), ApplyAt(n, u);
      && (Names(u, t, id) && !u.Modify? ==> Same(m', n', t, id) && SameButQuantity(m', n', t, id))
      && (Names(u, t, id) && u.Modify? ==>
            (Same(m', n', t, id) <==> SameButQuantity(m, n, t, id)) && (SameButQuantity(m', n', t, id) <==> SameButQuantity(m, n, t, id)))
      && (!Names(u, t, id) ==>
            (Same(m', n', t, id) <==> Same(m, n, t, id)) && (SameButQuantity(m', n', t, id) <==> SameButQuantity(m, n, t, id)))
  {
  }

  lemma {:induction false} OrderAgreesIff(m: Market, n: Market, us: seq<Update>, t: nat, id: nat)
    requires t < MAX_TICKERS && forall i :: 0 <= i < |us| ==> Trades(us[i]) && us[i].ticker < MAX_TICKERS
    ensures Same(Fold(m, us), Fold(n, us), t, id) <==> Reconciled(m, n, us, t, id)
    decreases us
  {
    if us != [] {
      hide ApplyAt, Same, SameButQuantity, Names, Replaced, Modified;
      OrderAgreesIff(ApplyAt(m, us[0]), ApplyAt(n, us[0]), us[1..], t, id);
      FirstOrRest(us, t, id);
      OneStep(m, n, us[0], t, id);
    }
  }

  lemma SameBook(m: Market, n: Market, t: nat)
    requires t < MAX_TICKERS && forall id: nat :: Same(m, n, t, id)
    ensures m[t] == n[t]
  {
    forall id: nat ensures id in m[t] <==> id in n[t] {
      assert Same(m, n, t, id);
    }
    forall id: nat | id in m[t] ensures m[t][id] == n[t][id] {
      assert Same(m, n, t, id);
    }
  }

  lemma SameEverywhere(m: Market, n: Market)
    ensures m == n <==> forall t: nat, id: nat :: t < MAX_TICKERS ==> Same(m, n, t, id)
  {
    if forall t: nat, id: nat :: t < MAX_TICKERS ==> Same(m, n, t, id) {
      forall t: nat | t < MAX_TICKERS ensures m[t] == n[t] {
        SameBook(m, n, t);
      }
    }
  }

  /** The same updates take two markets to one market if and only if every order is reconciled. */
  lemma FoldsAgreeIff(m: Market, n: Market, us: seq<Update>)
    requires forall i :: 0 <= i < |us| ==> Trades(us[i]) && us[i].ticker < MAX_TICKERS
    ensures Fold(m, us) == Fold(n, us) <==> AllReconciled(m, n, us)
  {
    hide Same, Reconciled, Fold;
    forall t: nat, id: nat | t < MAX_TICKERS
      ensures Same(Fold(m, us), Fold(n, us), t, id) <==> Reconciled(m, n, us, t, id)
    {
      OrderAgreesIff(m, n, us, t, id);
    }
    SameEverywhere(Fold(m, us), Fold(n, us));
  }
}

/**
 Whole runs of one book, and of the exchange with a book per ticker.
 */
module ExchangeRuns {
  import opened Domain
  import opened Messages
  import opened PriceTime
  import opened BookLaws
  import opened PublicFeed
  import opened MarketData

  // ----- One book

  /** Every request is admissible when it is processed. */
  ghost predicate AdmissibleRun(b: Book, rs: seq<Request>)
    decreases rs
  {
    rs != [] ==> Owned(b.orders) && Admissible(b, rs[0]) && AdmissibleRun(Process(b, rs[0]).book, rs[1..])
  }

  /** After every request the memory pools hold the resting orders and their levels. */
  ghost predicate RoomyRun(b: Book, rs: seq<Request>)
    requires AdmissibleRun(b, rs)
    decreases rs
  {
    rs != [] ==> Roomy(Process(b, rs[0]).book.orders) && RoomyRun(Process(b, rs[0]).book, rs[1..])
  }

  ghost function Run(b: Book, rs: seq<Request>): Step
    requires AdmissibleRun(b, rs)
    decreases rs
  {
    if rs == [] then Step(b, [], [])
    else
      var s := Process(b, rs[0]);
      var t := Run(s.book, rs[1..]);
      Step(t.book, s.responses + t.responses, s.updates + t.updates)
  }

  /** `whole` is what has been done, followed by `rest`. */
  ghost predicate Follows(whole: Step, done: Step, rest: Step) {
    && whole.book == rest.book
    && whole.responses == done.responses + rest.responses && whole.updates == done.updates + rest.updates
  }

  lemma FollowsStep(whole: Step, done: Step, b: Book, rs: seq<Request>)
    requires rs != [] && AdmissibleRun(b, rs) && Follows(whole, done, Run(b, rs))
    ensures Owned(b.orders) && Admissible(b, rs[0])
    ensures var s := Process(b, rs[0]);
      && AdmissibleRun(s.book, rs[1..])
      && (RoomyRun(b, rs) <==> Roomy(s.book.orders) && RoomyRun(s.book, rs[1..]))
      && Follows(whole, Step(s.book, done.responses + s.responses, done.updates + s.updates), Run(s.book, rs[1..]))
  {
    hide Process;
  }

  lemma FollowsNothing(whole: Step, b: Book)
    ensures Follows(whole, Step(b, [], []), whole)
  {
  }

  lemma FollowsAll(whole: Step, done: Step, b: Book)
    requires AdmissibleRun(b, []) && Follows(whole, done, Run(b, []))
    ensures whole == Step(b, done.responses, done.updates) && RoomyRun(b, [])
  {
  }

  /** After any run the book is well formed: uncrossed, priorities ascending along each level, no
      owner twice. */
  lemma {:induction false} RunKeepsWellFormed(b: Book, rs: seq<Request>)
    requires WellFormed(b) && AdmissibleRun(b, rs)
    ensures WellFormed(Run(b, rs).book)
    decreases rs
  {
    if rs != [] {
      hide WellFormed, Process;
      ProcessKeepsWellFormed(b, rs[0]);
      RunKeepsWellFormed(Process(b, rs[0]).book, rs[1..]);
    }
  }

  /** The responses of any run account exactly for the open quantity of every order. */
  lemma {:induction false} RunAccounts(b: Book, rs: seq<Request>)
    requires WellFormed(b) && AdmissibleRun(b, rs)
    ensures UniqueOwners(Run(b, rs).book.orders)
    ensures Accounts(LedgerOf(b.orders), Run(b, rs).responses, LedgerOf(Run(b, rs).book.orders))
    decreases rs
  {
    if rs != [] {
      hide Process, LedgerOf, Accounts, IsLedger, UniqueOwners;
      var s := Process(b, rs[0]);
      ProcessKeepsWellFormed(b, rs[0]);
      ProcessAccounts(b, rs[0]);
      RunAccounts(s.book, rs[1..]);
      var t := Run(s.book, rs[1..]);
      AccountsConcat(LedgerOf(b.orders), s.responses, LedgerOf(s.book.orders), t.responses, LedgerOf(t.book.orders));
    }
  }

  /** The updates of any run replay the public book, each step being legal for every receiver. */
  lemma {:induction false} RunReplays(b: Book, rs: seq<Request>)
    requires WellFormed(b) && AdmissibleRun(b, rs) && RoomyRun(b, rs)
    ensures Replays(Publish(b.orders), Run(b, rs).updates, Publish(Run(b, rs).book.orders))
    decreases rs
  {
    if rs != [] {
      hide WellFormed, Process, Publish, Replays;
      var s := Process(b, rs[0]);
      ProcessKeepsWellFormed(b, rs[0]);
      ProcessReplays(b, rs[0]);
      RunReplays(s.book, rs[1..]);
      var t := Run(s.book, rs[1..]);
      ReplaysConcat(Publish(b.orders), s.updates, Publish(s.book.orders), t.updates, Publish(t.book.orders));
    }
  }

  // ----- Conservation of quantity

  function OpenOf(l: Ledger, k: Owner): nat {
    if k in l then l[k].quantity else 0
  }

  /** What a response takes from, or gives to, the open quantity of order `k`. */
  function AcceptedIn(rs: seq<Response>, k: Owner): nat {
    if rs == [] then 0
    else (if rs[0].kind == Accepted && About(rs[0]) == k then rs[0].leaves else 0) + AcceptedIn(rs[1..], k)
  }

  function ExecutedIn(rs: seq<Response>, k: Owner): nat {
    if rs == [] then 0
    else (if rs[0].kind == Filled && About(rs[0]) == k then rs[0].executed else 0) + ExecutedIn(rs[1..], k)
  }

  function CancelledIn(rs: seq<Response>, k: Owner): nat {
    if rs == [] then 0
    else (if rs[0].kind == Cancelled && About(rs[0]) == k then rs[0].leaves else 0) + CancelledIn(rs[1..], k)
  }

  lemma {:induction false} AccountsConserve(l: Ledger, rs: seq<Response>, l': Ledger, k: Owner)
    requires Accounts(l, rs, l')
    ensures OpenOf(l, k) + AcceptedIn(rs, k) == ExecutedIn(rs, k) + CancelledIn(rs, k) + OpenOf(l', k)
    decreases rs
  {
    if rs != [] {
      AccountsConserve(Account(l, rs[0]).value, rs[1..], l', k);
    }
  }

  /** Over any run from an empty book, for every order: accepted = executed + cancelled + still resting. */
  lemma QuantityIsConserved(ticker: nat, rs: seq<Request>, k: Owner)
    requires AdmissibleRun(Book(ticker, map[], 1), rs)
    ensures var s := Run(Book(ticker, map[], 1), rs);
      && UniqueOwners(s.book.orders)
      && AcceptedIn(s.responses, k) == ExecutedIn(s.responses, k) + CancelledIn(s.responses, k) + OpenOf(LedgerOf(s.book.orders), k)
  {
    hide Accounts, Run;
    var b := Book(ticker, map[], 1);
    RunAccounts(b, rs);
    EmptyLedger();
    AccountsConserve(LedgerOf(b.orders), Run(b, rs).responses, LedgerOf(Run(b, rs).book.orders), k);
  }

  lemma EmptyLedger()
    ensures LedgerOf(map[]) == map[]
  {
    LedgerIs(map[], map[]);
  }

  // ----- The exchange

  /** One book per ticker, book t having ticker id t. */
  ghost predicate IsExchange(books: seq<Book>) {
    |books| == MAX_TICKERS && forall t :: 0 <= t < MAX_TICKERS ==> books[t].ticker == t && WellFormed(books[t])
  }

  function PublishAll(books: seq<Book>): Market
    requires |books| == MAX_TICKERS
  {
    seq(MAX_TICKERS, t requires 0 <= t < MAX_TICKERS => Publish(books[t].orders))
  }

  /** A request for one ticker. */
  datatype Routed = Routed(ticker: nat, request: Request)

  ghost predicate AdmissibleAt(books: seq<Book>, r: Routed) {
    && r.ticker < |books| && Owned(books[r.ticker].orders) && Admissible(books[r.ticker], r.request)
    && books[r.ticker].nextId < MAX_ORDER_IDS && Roomy(Process(books[r.ticker], r.request).book.orders)
  }

  ghost function Handle(books: seq<Book>, r: Routed): (seq<Book>, seq<Update>)
    requires AdmissibleAt(books, r)
  {
    var s := Process(books[r.ticker], r.request);
    (books[r.ticker := s.book], s.updates)
  }

  /** Every update of a step carries the ticker of the book and an id the book has handed out. */
  ghost predicate Labelled(us: seq<Update>, t: nat, bound: nat) {
    forall i :: 0 <= i < |us| ==> Trades(us[i]) && us[i].ticker == t && us[i].id < bound
  }

  lemma {:induction false} MatchLabels(o: Orders, t: Taker, leaves: nat, bound: nat)
    requires Owned(o) && t.owner.Owner? && forall id :: id in o ==> id < bound
    ensures Labelled(Match(o, t, leaves).updates, t.ticker, bound)
    decreases |o|, leaves
  {
    var best := Best(o, Opposite(t.side));
    if leaves > 0 && best.Some? && Crosses(t, o[best.value].price) {
      var f := Fill(o, t, best.value, leaves);
      MatchLabels(f.orders, t, f.leaves, bound);
    }
  }

  lemma ProcessLabels(b: Book, r: Request)
    requires WellFormed(b)
    ensures Labelled(Process(b, r).updates, b.ticker, b.nextId + 1)
    ensures Process(b, r).book.ticker == b.ticker
  {
    hide Uncrossed, PrioritiesAscend, SlotsApart, UniqueOwners, NextPriority, Match;
    match r
    case NewOrder(client, orderId, side, price, quantity) =>
      MatchLabels(b.orders, Taker(b.ticker, Owner(client, orderId), b.nextId, side, price), quantity, b.nextId);
    case CancelOrder(client, orderId) =>
  }

  /** A replay of one book, seen as a step of the whole market. */
  lemma {:induction false} ReplayInMarket(m: Market, t: nat, us: seq<Update>, o: Orders)
    requires t < MAX_TICKERS && Replays(m[t], us, o) && Labelled(us, t, MAX_ORDER_IDS)
    ensures LegalRun(m, us) && Fold(m, us) == m[t := o]
    decreases us
  {
    if us == [] {
      assert m[t := o] == m;
    } else {
      hide Legal, Apply;
      assert us[0].ticker == t;
      var m' := ApplyAt(m, us[0]);
      ReplayInMarket(m', t, us[1..], o);
      assert m'[t := o] == m[t := o];
    }
  }

  /** A request to any ticker's book emits updates that take the public market to the public market
      after it. */
  lemma HandleReplays(books: seq<Book>, r: Routed)
    requires IsExchange(books) && AdmissibleAt(books, r)
    ensures var (books', us) := Handle(books, r);
      && IsExchange(books') && LegalRun(PublishAll(books), us) && Fold(PublishAll(books), us) == PublishAll(books')
      && forall i :: 0 <= i < |us| ==> Trades(us[i])
  {
    hide Process, Publish, Replays, Fold, LegalRun, WellFormed;
    var b := books[r.ticker];
    var s := Process(b, r.request);
    ProcessKeepsWellFormed(b, r.request);
    ProcessReplays(b, r.request);
    ProcessLabels(b, r.request);
    ReplayInMarket(PublishAll(books), r.ticker, s.updates, Publish(s.book.orders));
    assert PublishAll(books[r.ticker := s.book]) == PublishAll(books)[r.ticker := Publish(s.book.orders)];
  }
}

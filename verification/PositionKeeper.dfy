/**
 Position and profit and loss of one ticker, over real arithmetic. Profit is compared with an
 independent account: the cash paid and received, plus the open position at the current price.
 */
module PositionKeeper {
  import opened Domain
  import opened OrderManager

  /** `buyVwap` and `sellVwap` are the two entries of open_vwap: price times quantity, not an average. */
  datatype Position = Position(
    position: int, real_: real, unreal: real, total: real, buyVwap: real, sellVwap: real, volume: nat)

  const FLAT := Position(0, 0.0, 0.0, 0.0, 0.0, 0.0, 0)

  datatype Execution = Execution(side: Side, price: int, quantity: nat)

  function Abs(x: int): nat {
    if x < 0 then -x else x
  }

  lemma AbsIsPositive(x: int, y: int)
    ensures Opposed(x, y) ==> Abs(x) > 0
  {
  }

  predicate Opposed(x: int, y: int) {
    x * y < 0
  }

  function Value(price: int, quantity: nat): real {
    (price * quantity) as real
  }

  /** What closing a quantity against an average price earns. */
  function Gain(closed: nat, average: real, price: int, sideValue: int): real {
    (closed as real) * (average - price as real) * (sideValue as real)
  }

  function Vwap(p: Position, s: Side): real {
    if s == Buy then p.buyVwap else p.sellVwap
  }

  function WithVwap(p: Position, s: Side, v: real): Position {
    if s == Buy then p.(buyVwap := v) else p.(sellVwap := v)
  }

  /** The execution takes back part of the position, but not all of it. */
  predicate Reduces(p: Position, e: Execution) {
    Opposed(p.position, SideValue(e.side)) && e.quantity < Abs(p.position)
  }

  /** The profit of the open position at a price. */
  function Unrealised(p: Position, price: real): real {
    if p.position == 0 then 0.0
    else if p.position > 0 then (price - p.buyVwap / (p.position as real)) * (p.position as real)
    else (p.sellVwap / (Abs(p.position) as real) - price) * (Abs(p.position) as real)
  }

  /** The positions and averages after an execution, before the open profit is worked out. */
  function Executed(p: Position, e: Execution): Position {
    var v := SideValue(e.side);
    var q := p.(position := p.position + e.quantity * v, volume := p.volume + e.quantity);
    if !Opposed(p.position, v) then WithVwap(q, e.side, Vwap(p, e.side) + Value(e.price, e.quantity))
    else
      var size := Abs(p.position);
      var average := Vwap(p, Opposite(e.side)) / (size as real);
      var closed := if e.quantity < size then e.quantity else size;
      var r := q.(real_ := p.real_ + Gain(closed, average, e.price, v));
      if Opposed(q.position, p.position) then
        WithVwap(WithVwap(r, e.side, Value(e.price, Abs(q.position))), Opposite(e.side), 0.0)
      else r
  }

  function Valued(p: Position, price: real): Position {
    var q := if p.position == 0 then p.(buyVwap := 0.0, sellVwap := 0.0) else p;
    var u := Unrealised(q, price);
    q.(unreal := u, total := u + q.real_)
  }

  /** addFill. */
  function Filled(p: Position, e: Execution): Position {
    Valued(Executed(p, e), e.price as real)
  }

  /** updateBBO. */
  function Mark(p: Position, bid: int, ask: int): Position {
    var u := if p.position != 0 && bid != PRICE_INVALID && ask != PRICE_INVALID
             then Unrealised(p, (bid + ask) as real * 0.5) else p.unreal;
    p.(unreal := u, total := u + p.real_)
  }

  /** The record as the source has it, updated in place. */
  class PositionInfo {
    var position: int
    var realPnl: real
    var unrealPnl: real
    var totalPnl: real
    var buyVwap: real
    var sellVwap: real
    var volume: nat

    ghost function State(): Position
      reads this
    {
      Position(position, realPnl, unrealPnl, totalPnl, buyVwap, sellVwap, volume)
    }

    constructor ()
      ensures State() == FLAT
    {
      position, realPnl, unrealPnl, totalPnl, buyVwap, sellVwap, volume := 0, 0.0, 0.0, 0.0, 0.0, 0.0, 0;
    }

    /** addFill. Realised profit less open basis moves by the cost of the fill and the slip of a partial
        reduction, and the total is that plus the position at the price of the fill. */
    method AddFill(e: Execution)
      modifies this
      ensures State() == Filled(old(State()), e)
      ensures position == old(position) + SideValue(e.side) * e.quantity && volume == old(volume) + e.quantity
      ensures old(Tidy(State())) ==>
        Tidy(State()) && Implied(State()) == old(Implied(State())) - Cost(e) - Slip(old(State()), e)
      ensures totalPnl == Implied(State()) + (position as real) * (e.price as real)
      ensures unrealPnl == (position as real) * (e.price as real) - Basis(State()) && totalPnl == realPnl + unrealPnl
    {
      hide Basis, Filled, Executed, Valued, Implied, Slip, Cost, Tidy, SideValue;
      ghost var before := State();
      FilledMeans(before, e);
      Execute(e);
      Settle(e.price as real);
    }

    /** The first half of addFill: position, volume, averages and realised profit. */
    method Execute(e: Execution)
      modifies `position, `volume, `realPnl, `buyVwap, `sellVwap
      ensures State() == Executed(old(State()), e)
    {
      hide Abs, Opposed, Value, Gain, SideValue;
      AbsIsPositive(position, SideValue(e.side));
      var oldPosition := position;
      var v := SideValue(e.side);
      position := position + e.quantity * v;
      volume := volume + e.quantity;
      if !Opposed(oldPosition, v) {
        StoreVwap(e.side, (if e.side == Buy then buyVwap else sellVwap) + Value(e.price, e.quantity));
      } else {
        var size := Abs(oldPosition);
        var average := (if e.side == Buy then sellVwap else buyVwap) / (size as real);
        var closed := if e.quantity < size then e.quantity else size;
        realPnl := realPnl + Gain(closed, average, e.price, v);
        if Opposed(position, oldPosition) {
          StoreVwap(e.side, Value(e.price, Abs(position)));
          StoreVwap(Opposite(e.side), 0.0);
        }
      }
    }

    method StoreVwap(s: Side, value: real)
      modifies `buyVwap, `sellVwap
      ensures State() == WithVwap(old(State()), s, value)
    {
      if s == Buy {
        buyVwap := value;
      } else {
        sellVwap := value;
      }
    }

    /** The second half of addFill: the profit of what is open at the price of the fill. */
    method Settle(price: real)
      modifies `unrealPnl, `totalPnl, `buyVwap, `sellVwap
      ensures State() == Valued(old(State()), price)
    {
      if position == 0 {
        buyVwap, sellVwap, unrealPnl := 0.0, 0.0, 0.0;
      } else if position > 0 {
        unrealPnl := (price - buyVwap / (position as real)) * (position as real);
      } else {
        unrealPnl := (sellVwap / (Abs(position) as real) - price) * (Abs(position) as real);
      }
      totalPnl := unrealPnl + realPnl;
    }

    /** updateBBO. With a two-sided quote, an open position is worth the implied cash plus the position at
        the mid price; otherwise the open profit stays. */
    method UpdateBBO(bid: int, ask: int)
      modifies `unrealPnl, `totalPnl
      ensures State() == Mark(old(State()), bid, ask)
      ensures Implied(State()) == old(Implied(State()))
      ensures position != 0 && bid != PRICE_INVALID && ask != PRICE_INVALID ==>
        && totalPnl == Implied(State()) + (position as real) * ((bid + ask) as real * 0.5)
        && unrealPnl == (position as real) * ((bid + ask) as real * 0.5) - Basis(State()) && totalPnl == realPnl + unrealPnl
      ensures position == 0 || bid == PRICE_INVALID || ask == PRICE_INVALID ==>
        unrealPnl == old(unrealPnl) && totalPnl == unrealPnl + realPnl
    {
      UnrealisedIs(State(), (bid + ask) as real * 0.5);
      if position != 0 && bid != PRICE_INVALID && ask != PRICE_INVALID {
        var mid := (bid + ask) as real * 0.5;
        if position > 0 {
          unrealPnl := (mid - buyVwap / (position as real)) * (position as real);
        } else {
          unrealPnl := (sellVwap / (Abs(position) as real) - mid) * (Abs(position) as real);
        }
      }
      totalPnl := unrealPnl + realPnl;
    }
  }

  // ----- The independent account

  /** What an execution costs. */
  function Cost(e: Execution): real {
    (SideValue(e.side) * e.price * e.quantity) as real
  }

  function CashOf(es: seq<Execution>): real {
    if es == [] then 0.0 else CashOf(es[..|es| - 1]) - Cost(es[|es| - 1])
  }

  function PositionOf(es: seq<Execution>): int {
    if es == [] then 0
    else PositionOf(es[..|es| - 1]) + SideValue(es[|es| - 1].side) * es[|es| - 1].quantity
  }

  function After(es: seq<Execution>): Position {
    if es == [] then FLAT else Filled(After(es[..|es| - 1]), es[|es| - 1])
  }

  /** What was paid for the open position, according to the averages. */
  function Basis(p: Position): real {
    if p.position > 0 then p.buyVwap else if p.position < 0 then -p.sellVwap else 0.0
  }

  /** By how much one execution moves the books away from the cash account: a partial reduction books
      the average price of what it closes and leaves it in the basis of what stays open. */
  function Slip(p: Position, e: Execution): real {
    if Reduces(p, e) then (e.quantity as real) * (Basis(p) / (Abs(p.position) as real)) else 0.0
  }

  function DriftOf(es: seq<Execution>): real {
    if es == [] then 0.0
    else DriftOf(es[..|es| - 1]) + Slip(After(es[..|es| - 1]), es[|es| - 1])
  }

  /** Only the side of the open position has a basis. */
  predicate Tidy(p: Position) {
    (p.position <= 0 ==> p.buyVwap == 0.0) && (p.position >= 0 ==> p.sellVwap == 0.0)
  }

  lemma AddFillIsTidy(p: Position, e: Execution)
    requires Tidy(p)
    ensures Tidy(Filled(p, e))
  {
  }

  lemma UnrealisedIs(p: Position, price: real)
    ensures Unrealised(p, price) == (p.position as real) * price - Basis(p)
  {
  }

  /** The realised profit less the open basis: what the books say the cash account is. */
  function Implied(p: Position): real {
    p.real_ - Basis(p)
  }

  lemma OpeningIsExact(p: Position, e: Execution)
    requires Tidy(p) && !Opposed(p.position, SideValue(e.side))
    ensures Implied(Filled(p, e)) == Implied(p) - Cost(e)
  {
  }

  lemma ReducingSlips(p: Position, e: Execution)
    requires Tidy(p) && Reduces(p, e)
    ensures Implied(Filled(p, e)) == Implied(p) - Cost(e) - Slip(p, e)
  {
    hide Filled, Gain, Cost, Vwap, Tidy;
    var average := OpenAverage(p, e);
    ReducingKeepsBasis(p, e);
    GainIs(e.quantity, average, e.price);
    CostIs(e);
    SlipIs(p, e);
  }

  /** The average price of the position that the execution reduces. */
  function OpenAverage(p: Position, e: Execution): real
    requires Reduces(p, e)
  {
    Vwap(p, Opposite(e.side)) / (Abs(p.position) as real)
  }

  lemma ReducingKeepsBasis(p: Position, e: Execution)
    requires Reduces(p, e)
    ensures Basis(Filled(p, e)) == Basis(p)
    ensures Filled(p, e).real_ == p.real_ + Gain(e.quantity, OpenAverage(p, e), e.price, SideValue(e.side))
  {
    hide Gain, Unrealised;
  }

  lemma SlipIs(p: Position, e: Execution)
    requires Reduces(p, e)
    ensures Slip(p, e) == (if e.side == Sell then 1.0 else -1.0) * ((e.quantity as real) * OpenAverage(p, e))
  {
    var size := Abs(p.position) as real;
    assert if e.side == Sell then p.position > 0 else p.position < 0;
    Negated(e.quantity as real, p.sellVwap, size);
  }

  lemma Negated(n: real, v: real, size: real)
    requires size > 0.0
    ensures n * (-v / size) == -1.0 * (n * (v / size))
  {
  }

  lemma GainIs(closed: nat, average: real, price: int)
    ensures Gain(closed, average, price, 1) == (closed as real) * average - (closed as real) * (price as real)
    ensures Gain(closed, average, price, -1) == (closed as real) * (price as real) - (closed as real) * average
  {
  }

  lemma CostIs(e: Execution)
    ensures Cost(e) == (if e.side == Buy then 1.0 else -1.0) * ((e.quantity as real) * (e.price as real))
  {
  }

  lemma ClosingIsExact(p: Position, e: Execution)
    requires Tidy(p) && Opposed(p.position, SideValue(e.side)) && e.quantity == Abs(p.position)
    ensures Implied(Filled(p, e)) == Implied(p) - Cost(e)
  {
  }

  lemma FlippingIsExact(p: Position, e: Execution)
    requires Tidy(p) && Opposed(p.position, SideValue(e.side)) && e.quantity > Abs(p.position)
    ensures Implied(Filled(p, e)) == Implied(p) - Cost(e)
  {
  }

  /** Every execution moves the implied cash by exactly its cost, plus the slip of a partial reduction. */
  lemma FillImplies(p: Position, e: Execution)
    requires Tidy(p)
    ensures Implied(Filled(p, e)) == Implied(p) - Cost(e) - Slip(p, e)
  {
    hide Filled, Cost, Basis;
    if !Opposed(p.position, SideValue(e.side)) {
      OpeningIsExact(p, e);
    } else if e.quantity < Abs(p.position) {
      ReducingSlips(p, e);
    } else if e.quantity == Abs(p.position) {
      ClosingIsExact(p, e);
    } else {
      FlippingIsExact(p, e);
    }
  }

  /** After any fills, the books imply the cash account less the accumulated drift, and the position is
      the sum of the fills. */
  lemma {:induction false} BooksFollowCash(es: seq<Execution>)
    ensures Tidy(After(es)) && After(es).position == PositionOf(es)
    ensures Implied(After(es)) == CashOf(es) - DriftOf(es)
  {
    if es != [] {
      hide Implied, Cost, Slip;
      var prior, e := es[..|es| - 1], es[|es| - 1];
      BooksFollowCash(prior);
      AddFillIsTidy(After(prior), e);
      FillImplies(After(prior), e);
      FilledPosition(After(prior), e);
    }
  }

  /** What a fill means for the record. */
  lemma FilledMeans(p: Position, e: Execution)
    ensures var q := Filled(p, e);
      && q == Valued(Executed(p, e), e.price as real)
      && q.position == p.position + SideValue(e.side) * e.quantity && q.volume == p.volume + e.quantity
      && (Tidy(p) ==> Tidy(q) && Implied(q) == Implied(p) - Cost(e) - Slip(p, e))
      && q.total == Implied(q) + (q.position as real) * (e.price as real)
      && q.unreal == (q.position as real) * (e.price as real) - Basis(q) && q.total == q.real_ + q.unreal
  {
    hide Basis, Executed, Valued, Implied, Slip, Cost, Tidy, SideValue;
    FilledPosition(p, e);
    FilledTotal(p, e);
    FilledOpenProfit(p, e);
    if Tidy(p) {
      AddFillIsTidy(p, e);
      FillImplies(p, e);
    }
  }

  lemma FilledPosition(p: Position, e: Execution)
    ensures Filled(p, e).position == p.position + SideValue(e.side) * e.quantity && Filled(p, e).volume == p.volume + e.quantity
  {
  }

  /** The open profit is the position at the price of the fill, less its basis. */
  lemma FilledOpenProfit(p: Position, e: Execution)
    ensures var q := Filled(p, e);
      q.unreal == (q.position as real) * (e.price as real) - Basis(q) && q.total == q.real_ + q.unreal
  {
    hide Executed, Unrealised;
    var r := Executed(p, e);
    var q := if r.position == 0 then r.(buyVwap := 0.0, sellVwap := 0.0) else r;
    UnrealisedIs(q, e.price as real);
  }

  lemma FilledTotal(p: Position, e: Execution)
    ensures Filled(p, e).total == Implied(Filled(p, e)) + (Filled(p, e).position as real) * (e.price as real)
  {
    UnrealisedIs(Filled(p, e), e.price as real);
    hide Executed, Basis;
  }

  /** After any fills, the total profit is cash plus the position at the last price, less the drift:
      the exact amount by which the figure is off. */
  lemma TotalIsCashPlusPosition(es: seq<Execution>)
    requires es != []
    ensures After(es).total ==
      CashOf(es) + (PositionOf(es) as real) * (es[|es| - 1].price as real) - DriftOf(es)
  {
    hide Filled, Implied, DriftOf, CashOf, PositionOf;
    BooksFollowCash(es);
    FilledTotal(After(es[..|es| - 1]), es[|es| - 1]);
  }

  /** Without partial reductions nothing drifts. */
  lemma {:induction false} NoReductionNoDrift(es: seq<Execution>)
    requires forall i :: 0 <= i < |es| ==> !Reduces(After(es[..i]), es[i])
    ensures DriftOf(es) == 0.0
  {
    if es != [] {
      hide After, Reduces;
      var prior := es[..|es| - 1];
      assert forall i :: 0 <= i < |prior| ==> prior[..i] == es[..i];
      NoReductionNoDrift(prior);
    }
  }

  // ----- Exactly which fills go wrong

  predicate Priced(es: seq<Execution>) {
    forall i :: 0 <= i < |es| ==> es[i].price > 0 && es[i].quantity > 0
  }

  /** With positive prices the basis has the sign of the position. */
  predicate Signed(p: Position) {
    && (p.position > 0 ==> Basis(p) > 0.0) && (p.position < 0 ==> Basis(p) < 0.0)
  }

  lemma FilledIsSigned(p: Position, e: Execution)
    requires Tidy(p) && Signed(p) && e.price > 0 && e.quantity > 0
    ensures Signed(Filled(p, e))
  {
    var n := Filled(p, e);
    assert e.price * e.quantity > 0;
    if n.position != 0 {
      assert e.price * Abs(n.position) > 0;
    }
  }

  lemma {:induction false} RunIsSigned(es: seq<Execution>)
    requires Priced(es)
    ensures Signed(After(es))
  {
    if es != [] {
      hide Filled, Signed, Tidy;
      var prior, e := es[..|es| - 1], es[|es| - 1];
      RunIsSigned(prior);
      BooksFollowCash(prior);
      FilledIsSigned(After(prior), e);
    } else {
      assert Signed(FLAT);
    }
  }

  /** At positive prices, a fill throws the total off exactly if it is a partial reduction: too low when
      it reduces a long position, too high when it reduces a short one. */
  lemma DriftIffReduction(es: seq<Execution>, e: Execution)
    requires Priced(es) && e.price > 0 && e.quantity > 0
    ensures DriftOf(es + [e]) == DriftOf(es) <==> !Reduces(After(es), e)
    ensures Reduces(After(es), e) && e.side == Sell ==> DriftOf(es + [e]) > DriftOf(es)
    ensures Reduces(After(es), e) && e.side == Buy ==> DriftOf(es + [e]) < DriftOf(es)
  {
    hide DriftOf, After, Slip, Reduces, Signed;
    DriftNext(es, e);
    RunIsSigned(es);
    SlipSign(After(es), e);
  }

  lemma DriftNext(es: seq<Execution>, e: Execution)
    ensures DriftOf(es + [e]) == DriftOf(es) + Slip(After(es), e)
  {
    hide After, Slip;
    assert (es + [e])[..|es|] == es;
  }

  lemma SlipSign(p: Position, e: Execution)
    requires Signed(p) && e.quantity > 0
    ensures !Reduces(p, e) ==> Slip(p, e) == 0.0
    ensures Reduces(p, e) ==> if e.side == Sell then Slip(p, e) > 0.0 else Slip(p, e) < 0.0
  {
    hide Basis;
    if Reduces(p, e) {
      assert if e.side == Sell then p.position > 0 else p.position < 0;
      SlipIsSigned(e.quantity as real, Basis(p), Abs(p.position) as real);
    }
  }

  lemma SlipIsSigned(q: real, basis: real, size: real)
    requires q > 0.0 && size > 0.0
    ensures basis > 0.0 ==> q * (basis / size) > 0.0
    ensures basis < 0.0 ==> q * (basis / size) < 0.0
  {
  }

  /** Buying two at 100 and selling them one at a time at 100 costs nothing and is booked as a loss of
      100. */
  lemma SellingInTwoStepsShowsALoss()
    ensures var es := [Execution(Buy, 100, 2), Execution(Sell, 100, 1), Execution(Sell, 100, 1)];
      CashOf(es) == 0.0 && PositionOf(es) == 0 && After(es).total == -100.0
  {
    var es := [Execution(Buy, 100, 2), Execution(Sell, 100, 1), Execution(Sell, 100, 1)];
    var one, two := [es[0]], [es[0], es[1]];
    assert es[..2] == two && two[..1] == one && one[..0] == [];
    var p1 := Position(2, 0.0, 0.0, 0.0, 200.0, 0.0, 2);
    var p2 := Position(1, 0.0, -100.0, -100.0, 200.0, 0.0, 3);
    assert Filled(FLAT, es[0]) == p1;
    assert Filled(p1, es[1]) == p2;
    assert Filled(p2, es[2]) == Position(0, -100.0, 0.0, -100.0, 0.0, 0.0, 4);
    hide Filled, Cost;
    assert After(one) == p1;
    assert After(two) == p2;
    assert CashOf(one) == -Cost(es[0]) && PositionOf(one) == 2;
    assert CashOf(two) == CashOf(one) - Cost(es[1]) && PositionOf(two) == 1;
    CostsCancel();
  }

  lemma CostsCancel()
    ensures Cost(Execution(Buy, 100, 2)) == 200.0 && Cost(Execution(Sell, 100, 1)) == -100.0
  {
  }

  /** After a quote with both sides, the total is cash plus the position at the mid price, less the
      same drift. */
  lemma MarkIsCashPlusPosition(es: seq<Execution>, bid: int, ask: int)
    requires PositionOf(es) != 0 && bid != PRICE_INVALID && ask != PRICE_INVALID
    ensures Mark(After(es), bid, ask).total ==
      CashOf(es) + (PositionOf(es) as real) * ((bid + ask) as real * 0.5) - DriftOf(es)
  {
    hide After, DriftOf, CashOf, PositionOf;
    BooksFollowCash(es);
    UnrealisedIs(After(es), (bid + ask) as real * 0.5);
  }
}

/**
 The client's order manager: one order slot per ticker and side, the pre-trade risk check, and the
 reaction to exchange responses.
 */
module OrderManager {
  import opened Domain
  import opened Messages

  // ----- Risk

  datatype RiskConfig = RiskConfig(maxOrderSize: nat, maxPosition: nat)

  datatype RiskResult = OrderLimitExceeded | PositionLimitExceeded | LossLimitExceeded | Allowed

  function SideValue(s: Side): int {
    if s == Buy then 1 else -1
  }

  const TWO_31: nat := 0x8000_0000
  const TWO_32: nat := 0x1_0000_0000

  /** The value of a 32-bit signed register holding `x`: the casts and the arithmetic of the source. */
  function Wrap32(x: int): int {
    var w := x % TWO_32;
    if w < TWO_31 then w else w - TWO_32
  }

  function Abs32(x: int): int {
    if x < 0 then Wrap32(-x) else x
  }

  lemma WrapIsIdentity(x: int)
    requires 0 - TWO_31 <= x < TWO_31
    ensures Wrap32(x) == x
  {
  }

  lemma WrapAtTheEdge()
    ensures Wrap32(TWO_31) == 0 - TWO_31
  {
  }

  /** checkPreTradeRisk; `lossExceeded` stands for the comparison of the total P&L with the limit. */
  function CheckPreTradeRisk(cfg: RiskConfig, position: int, lossExceeded: bool, s: Side, quantity: nat): RiskResult {
    if quantity > cfg.maxOrderSize then OrderLimitExceeded
    else if Abs32(Wrap32(position + SideValue(s) * Wrap32(quantity))) > Wrap32(cfg.maxPosition) then PositionLimitExceeded
    else if lossExceeded then LossLimitExceeded
    else Allowed
  }

  predicate Within(cfg: RiskConfig, position: int) {
    0 - cfg.maxPosition <= position <= cfg.maxPosition
  }

  /** No order of the largest size can carry a position within the limit out of the 32-bit range. */
  predicate LimitsFit(cfg: RiskConfig) {
    cfg.maxPosition + cfg.maxOrderSize < TWO_31
  }

  /** With limits that fit, the verdict names the first of size, resulting position and loss that is over its
      limit, and an order passes exactly if none is. */
  lemma RiskCheckIsExact(cfg: RiskConfig, position: int, lossExceeded: bool, s: Side, quantity: nat)
    requires LimitsFit(cfg) && Within(cfg, position)
    ensures CheckPreTradeRisk(cfg, position, lossExceeded, s, quantity) == Allowed <==>
      quantity <= cfg.maxOrderSize && Within(cfg, position + SideValue(s) * quantity) && !lossExceeded
    ensures CheckPreTradeRisk(cfg, position, lossExceeded, s, quantity) == OrderLimitExceeded <==> quantity > cfg.maxOrderSize
    ensures CheckPreTradeRisk(cfg, position, lossExceeded, s, quantity) == PositionLimitExceeded <==>
      quantity <= cfg.maxOrderSize && !Within(cfg, position + SideValue(s) * quantity)
    ensures CheckPreTradeRisk(cfg, position, lossExceeded, s, quantity) == LossLimitExceeded <==>
      quantity <= cfg.maxOrderSize && Within(cfg, position + SideValue(s) * quantity) && lossExceeded
  {
    hide Wrap32;
    WrapIsIdentity(cfg.maxPosition);
    if quantity <= cfg.maxOrderSize {
      var sum := if s == Buy then position + quantity else position - quantity;
      WrapIsIdentity(quantity);
      assert sum == position + SideValue(s) * quantity;
      WrapIsIdentity(sum);
      if sum < 0 {
        WrapIsIdentity(-sum);
      }
    }
  }

  /** From a 32-bit position within the limit, the check lets no order through that could carry it over
      the limit. */
  ghost predicate ChecksPosition(cfg: RiskConfig) {
    forall position, lossExceeded, s, quantity: nat ::
      0 - TWO_31 <= position < TWO_31 && quantity < TWO_32 && Within(cfg, position) &&
      CheckPreTradeRisk(cfg, position, lossExceeded, s, quantity) == Allowed ==>
        Within(cfg, position + SideValue(s) * quantity)
  }

  /** The check protects the position limit exactly if the two limits add up to less than 2^31, or the
      position limit is itself beyond 2^31, where its cast is negative and next to nothing passes.
      Otherwise, from a long position at the limit, an order that reaches 2^31 overflows to a sum whose
      absolute value is negative. */
  lemma CheckProtectsIff(cfg: RiskConfig)
    requires cfg.maxPosition < TWO_32 && cfg.maxOrderSize < TWO_32
    ensures ChecksPosition(cfg) <==> LimitsFit(cfg) || cfg.maxPosition >= TWO_31
  {
    if LimitsFit(cfg) || cfg.maxPosition >= TWO_31 {
      forall position, lossExceeded, s, quantity: nat |
        0 - TWO_31 <= position < TWO_31 && quantity < TWO_32 && Within(cfg, position) &&
        CheckPreTradeRisk(cfg, position, lossExceeded, s, quantity) == Allowed
        ensures Within(cfg, position + SideValue(s) * quantity)
      {
        if LimitsFit(cfg) {
          RiskCheckIsExact(cfg, position, lossExceeded, s, quantity);
        } else {
          HugeLimitIsKept(cfg, position, lossExceeded, s, quantity);
        }
      }
    } else {
      var q: nat := TWO_31 - cfg.maxPosition;
      OverflowPasses(cfg, q);
      assert !Within(cfg, cfg.maxPosition + SideValue(Buy) * q);
    }
  }

  /** A register holds a number up to a multiple of 2^32. */
  lemma WrapIs(x: int)
    ensures 0 - TWO_31 <= Wrap32(x) < TWO_31 && (x - Wrap32(x)) % TWO_32 == 0
  {
  }

  lemma HugeLimitIsKept(cfg: RiskConfig, position: int, lossExceeded: bool, s: Side, quantity: nat)
    requires TWO_31 <= cfg.maxPosition < TWO_32 && 0 - TWO_31 <= position < TWO_31 && quantity < TWO_32
    requires CheckPreTradeRisk(cfg, position, lossExceeded, s, quantity) == Allowed
    ensures Within(cfg, position + SideValue(s) * quantity)
  {
    var w := Wrap32(quantity);
    var sum := if s == Buy then position + w else position - w;
    WrapIs(quantity);
    WrapIs(sum);
    WrapIs(cfg.maxPosition);
    WrapIs(0 - Wrap32(sum));
    assert Wrap32(cfg.maxPosition) == cfg.maxPosition - TWO_32;
    hide Wrap32;
    assert Wrap32(sum) == 0 - TWO_31;
  }

  lemma OverflowPasses(cfg: RiskConfig, q: nat)
    requires cfg.maxPosition + q == TWO_31 && 0 < q <= cfg.maxOrderSize
    ensures CheckPreTradeRisk(cfg, cfg.maxPosition, false, Buy, q) == Allowed
  {
    hide Wrap32;
    var p := cfg.maxPosition;
    WrapAtTheEdge();
    WrapIsIdentity(p);
    WrapIsIdentity(0 - TWO_31);
    if q < TWO_31 {
      WrapIsIdentity(q);
    }
  }

  // ----- The slots

  datatype SlotState = Invalid | PendingNew | Live | PendingCancel | Dead

  datatype Slot = Slot(state: SlotState, orderId: nat, price: int, quantity: nat)

  const UNUSED := Slot(Invalid, ORDER_ID_INVALID, PRICE_INVALID, QUANTITY_INVALID)

  datatype Manager = Manager(buy: Slot, sell: Slot, nextId: nat)

  function SlotOf(m: Manager, s: Side): Slot {
    if s == Buy then m.buy else m.sell
  }

  function WithSlot(m: Manager, s: Side, slot: Slot): Manager {
    if s == Buy then m.(buy := slot) else m.(sell := slot)
  }

  /** moveOrder, given the verdict of the risk check. */
  function Move(m: Manager, client: nat, s: Side, price: int, quantity: nat, allowed: bool): (Manager, seq<Request>) {
    var slot := SlotOf(m, s);
    match slot.state
    case Live =>
      if slot.price != price || slot.quantity != quantity then
        (WithSlot(m, s, slot.(state := PendingCancel)), [CancelOrder(client, slot.orderId)])
      else (m, [])
    case Invalid =>
      if price != PRICE_INVALID && allowed then Send(m, client, s, price, quantity) else (m, [])
    case Dead =>
      if price != PRICE_INVALID && allowed then Send(m, client, s, price, quantity) else (m, [])
    case PendingNew => (m, [])
    case PendingCancel => (m, [])
  }

  // ----- When a quote is acted on

  /** A slot that holds no order, because it never did or its order is done. */
  predicate Idle(slot: Slot) {
    slot.state == Invalid || slot.state == Dead
  }

  predicate Quotable(cfg: RiskConfig, position: int, lossExceeded: bool, s: Side, price: int, quantity: nat) {
    && price != PRICE_INVALID && quantity <= cfg.maxOrderSize
    && Within(cfg, position + SideValue(s) * quantity) && !lossExceeded
  }

  /** What a quote makes of a slot, as a law on the requests: an idle slot sends one new order, with this price
      and quantity and the next id, if and only if the price is valid and size, resulting position and loss are
      within the limits; a live slot sends the cancel of its order if and only if price or quantity differ; a
      pending slot sends nothing. The slot waits for the answer exactly if something was sent, and the other
      side's slot is left alone. */
  lemma QuoteIsActedOnIff(
      cfg: RiskConfig, m: Manager, client: nat, s: Side, price: int, quantity: nat, position: int, lossExceeded: bool)
    requires LimitsFit(cfg) && Within(cfg, position)
    ensures var slot := SlotOf(m, s);
      var allowed := CheckPreTradeRisk(cfg, position, lossExceeded, s, quantity) == Allowed;
      var (m', rs) := Move(m, client, s, price, quantity, allowed);
      var sends := (Idle(slot) && Quotable(cfg, position, lossExceeded, s, price, quantity))
                || (slot.state == Live && (slot.price != price || slot.quantity != quantity));
      && (sends && Idle(slot) ==>
            && rs == [NewOrder(client, m.nextId, s, price, quantity)]
            && SlotOf(m', s) == Slot(PendingNew, m.nextId, price, quantity) && m'.nextId == m.nextId + 1)
      && (sends && slot.state == Live ==>
            rs == [CancelOrder(client, slot.orderId)] && SlotOf(m', s) == slot.(state := PendingCancel) && m'.nextId == m.nextId)
      && (!sends ==> rs == [] && m' == m)
      && SlotOf(m', Opposite(s)) == SlotOf(m, Opposite(s))
  {
    hide CheckPreTradeRisk;
    RiskCheckIsExact(cfg, position, lossExceeded, s, quantity);
  }

  /** What a response makes of the slot of its side: an acknowledgement makes it live, a cancellation or a last
      fill ends it, and a fill leaves it with what remains; a rejection changes nothing. */
  lemma ResponseMovesSlot(m: Manager, r: Response)
    ensures r.side.None? || r.kind == CancelRejected ==> React(m, r) == m
    ensures r.side.Some? && r.kind != CancelRejected ==>
      var slot, slot' := SlotOf(m, r.side.value), SlotOf(React(m, r), r.side.value);
      && slot'.orderId == slot.orderId && slot'.price == slot.price
      && (r.kind == Accepted ==> slot'.state == Live && slot'.quantity == slot.quantity)
      && (r.kind == Cancelled || (r.kind == Filled && r.leaves == 0) ==> slot'.state == Dead)
      && (r.kind == Filled ==> slot'.quantity == r.leaves && (r.leaves > 0 ==> slot'.state == slot.state))
      && SlotOf(React(m, r), Opposite(r.side.value)) == SlotOf(m, Opposite(r.side.value))
      && React(m, r).nextId == m.nextId
  {
  }

  /** newOrder. */
  function Send(m: Manager, client: nat, s: Side, price: int, quantity: nat): (Manager, seq<Request>) {
    (WithSlot(m, s, Slot(PendingNew, m.nextId, price, quantity)).(nextId := m.nextId + 1),
     [NewOrder(client, m.nextId, s, price, quantity)])
  }

  /** onOrderUpdate. A CANCEL_REJECTED carries no side and changes nothing. */
  function React(m: Manager, r: Response): Manager {
    if r.side.None? then m
    else
      var slot := SlotOf(m, r.side.value);
      match r.kind
      case Accepted => WithSlot(m, r.side.value, slot.(state := Live))
      case Cancelled => WithSlot(m, r.side.value, slot.(state := Dead))
      case Filled =>
        WithSlot(m, r.side.value, slot.(quantity := r.leaves, state := if r.leaves == 0 then Dead else slot.state))
      case CancelRejected => m
  }

  /** Messages with the ticker they are for. */
  function Tagged<T>(t: nat, ms: seq<T>): seq<(nat, T)> {
    if ms == [] then [] else [(t, ms[0])] + Tagged(t, ms[1..])
  }

  /** The order manager as the source has it, with the requests it has sent and their tickers. */
  class OrderManager {
    const client: nat
    const cfg: seq<RiskConfig>
    var buys: seq<Slot>
    var sells: seq<Slot>
    var nextOrderId: nat
    var sent: seq<(nat, Request)>

    ghost predicate Valid()
      reads this
    {
      |buys| == |sells| == |cfg| == MAX_TICKERS
    }

    /** What the manager holds about one ticker. */
    ghost function State(t: nat): Manager
      requires Valid() && t < MAX_TICKERS
      reads this
    {
      Manager(buys[t], sells[t], nextOrderId)
    }

    constructor (client: nat, cfg: seq<RiskConfig>)
      requires |cfg| == MAX_TICKERS
      ensures Valid() && sent == [] && this.client == client && this.cfg == cfg
      ensures forall t: nat :: t < MAX_TICKERS ==> State(t) == Manager(UNUSED, UNUSED, 1)
    {
      this.client, this.cfg := client, cfg;
      buys := seq(MAX_TICKERS, _ => UNUSED);
      sells := seq(MAX_TICKERS, _ => UNUSED);
      nextOrderId, sent := 1, [];
    }

    method StoreSlot(t: nat, s: Side, slot: Slot)
      requires Valid() && t < MAX_TICKERS
      modifies `buys, `sells
      ensures Valid() && State(t) == WithSlot(old(State(t)), s, slot)
      ensures forall u: nat :: u < MAX_TICKERS && u != t ==> State(u) == old(State(u))
    {
      if s == Buy {
        buys := buys[t := slot];
      } else {
        sells := sells[t := slot];
      }
    }

    /** Another ticker's slots stay as they are; only the next order id may move on. */
    method MoveOrder(t: nat, s: Side, price: int, quantity: nat, position: int, lossExceeded: bool)
      requires Valid() && t < MAX_TICKERS
      modifies `buys, `sells, `nextOrderId, `sent
      ensures Valid()
      ensures var allowed := CheckPreTradeRisk(cfg[t], position, lossExceeded, s, quantity) == Allowed;
        var (m, rs) := Move(old(State(t)), client, s, price, quantity, allowed);
        State(t) == m && sent == old(sent) + Tagged(t, rs)
      ensures old(nextOrderId) <= nextOrderId
      ensures forall u: nat :: u < MAX_TICKERS && u != t ==> State(u) == old(State(u)).(nextId := nextOrderId)
    {
      var slot := if s == Buy then buys[t] else sells[t];
      if slot.state == Live {
        if slot.price != price || slot.quantity != quantity {
          sent := sent + [(t, CancelOrder(client, slot.orderId))];
          StoreSlot(t, s, slot.(state := PendingCancel));
        }
      } else if slot.state == Invalid || slot.state == Dead {
        if price != PRICE_INVALID {
          var verdict := CheckPreTradeRisk(cfg[t], position, lossExceeded, s, quantity);
          if verdict == Allowed {
            sent := sent + [(t, NewOrder(client, nextOrderId, s, price, quantity))];
            nextOrderId := nextOrderId + 1;
            StoreSlot(t, s, Slot(PendingNew, nextOrderId - 1, price, quantity));
          }
        }
      }
    }

    /** moveOrders: the bid first, then the ask, against the same position. */
    method MoveOrders(t: nat, bid: int, ask: int, clip: nat, position: int, lossExceeded: bool)
      requires Valid() && t < MAX_TICKERS
      modifies `buys, `sells, `nextOrderId, `sent
      ensures Valid()
      ensures var buyAllowed := CheckPreTradeRisk(cfg[t], position, lossExceeded, Buy, clip) == Allowed;
        var sellAllowed := CheckPreTradeRisk(cfg[t], position, lossExceeded, Sell, clip) == Allowed;
        var (m, rs) := Move(old(State(t)), client, Buy, bid, clip, buyAllowed);
        var (m', rs') := Move(m, client, Sell, ask, clip, sellAllowed);
        State(t) == m' && sent == old(sent) + Tagged(t, rs) + Tagged(t, rs')
      ensures forall u: nat :: u < MAX_TICKERS && u != t ==> State(u) == old(State(u)).(nextId := nextOrderId)
    {
      MoveOrder(t, Buy, bid, clip, position, lossExceeded);
      MoveOrder(t, Sell, ask, clip, position, lossExceeded);
    }

    method OnOrderUpdate(t: nat, r: Response)
      requires Valid() && t < MAX_TICKERS
      modifies `buys, `sells
      ensures Valid() && State(t) == React(old(State(t)), r)
      ensures forall u: nat :: u < MAX_TICKERS && u != t ==> State(u) == old(State(u))
    {
      if r.side.Some? {
        var slot := if r.side.value == Buy then buys[t] else sells[t];
        match r.kind {
          case Accepted => StoreSlot(t, r.side.value, slot.(state := Live));
          case Cancelled => StoreSlot(t, r.side.value, slot.(state := Dead));
          case Filled =>
            slot := slot.(quantity := r.leaves);
            if slot.quantity == 0 {
              slot := slot.(state := Dead);
            }
            StoreSlot(t, r.side.value, slot);
          case CancelRejected =>
        }
      }
    }
  }
}

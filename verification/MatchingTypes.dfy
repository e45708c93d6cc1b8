/** The vocabulary the matching engine shares: commands, events and fixed-point arithmetic.

    Prices and quantities are u64 in the engine, so they are a bounded subset type here and the
    verifier checks every intermediate result that is stored back into one. Sums of quantities are
    u128 in the engine and unbounded `nat` here: no book holds 2^64 orders. */
module MatchingTypes {

  datatype Option<+T> = None | Some(value: T)

  const MAX_U64: nat := 0xFFFF_FFFF_FFFF_FFFF
  const PRICE_SCALE: nat := 1_000_000_000
  const BPS_DENOMINATOR: nat := 10_000

  type u64 = x: int | 0 <= x <= 0xFFFF_FFFF_FFFF_FFFF

  type OrderId = string
  type AccountId = string

  datatype Side = Buy | Sell {
    function Opposite(): Side { if this == Buy then Sell else Buy }
  }

  datatype OrderType = Limit | Market
  datatype TimeInForce = GTC | IOC | FOK
  datatype StpMode = CancelTaker | CancelMaker | CancelBoth
  datatype MarketStatus = PreOpen | Open | PostOnly | Halted

  /** The reasons the engine itself can give; `UnknownMarket` is only ever given by the gateway. */
  datatype RejectReason =
    | MarketNotOpen | NoReferencePrice | TickViolation | LotViolation | BelowMinNotional
    | OutsideCollar | NotionalOverflow | QuantityNotPositive | PriceRequired | PriceNotAllowed
    | PostOnlyRequiresLimit | DuplicateClientOrderId | PostOnlyWouldCross | SelfTradePrevented
    | UnknownOrder

  datatype OrderRequest = OrderRequest(
    clientOrderId: string, side: Side, orderType: OrderType, timeInForce: TimeInForce,
    price: Option<u64>, qty: u64, postOnly: bool, stpMode: StpMode, accountId: AccountId)

  datatype Command =
    | Place(orderId: OrderId, request: OrderRequest)
    | Cancel(orderId: OrderId)
    | Amend(orderId: OrderId, newOrderId: OrderId, price: u64, qty: u64)
    | SetStatus(status: MarketStatus)

  datatype SequencedCommand = SequencedCommand(seqNo: nat, timestampMs: int, command: Command)

  /** Sequence numbers strictly increase. */
  ghost predicate Increasing(cmds: seq<SequencedCommand>) {
    forall i, j :: 0 <= i < j < |cmds| ==> cmds[i].seqNo < cmds[j].seqNo
  }

  /** `seq:index`, kept as the pair it renders. */
  datatype FillId = FillId(seqNo: nat, index: nat)

  datatype Fill = Fill(
    fillId: FillId, seqNo: nat, takerOrderId: OrderId, makerOrderId: OrderId, takerSide: Side,
    price: u64, qty: u64, timestampMs: int)

  datatype Event =
    | Accepted(seqNo: nat, orderId: OrderId, restingQty: u64)
    | Rejected(seqNo: nat, orderId: OrderId, reason: RejectReason)
    | Filled(fill: Fill)
    | Cancelled(seqNo: nat, orderId: OrderId, remainingQty: u64)
    | Expired(seqNo: nat, orderId: OrderId, remainingQty: u64)
    | StatusChanged(seqNo: nat, previous: MarketStatus, current: MarketStatus)
  {
    function Seq(): nat { if Filled? then fill.seqNo else seqNo }
  }

  datatype RestingOrder = RestingOrder(
    orderId: OrderId, accountId: AccountId, side: Side, price: u64, remaining: u64,
    stpMode: StpMode, restedAtSeq: nat)

  /** A price level of one side, named the way level changes name it. */
  datatype LevelKey = LevelKey(side: Side, price: u64)

  datatype MarketConfig = MarketConfig(
    id: string, tickSize: u64, lotSize: u64, minNotional: u64, collarBps: nat, status: MarketStatus)

  function Min(a: int, b: int): int { if a <= b then a else b }

  function SaturatingSub(a: nat, b: nat): nat { if a <= b then 0 else a - b }

  /** Is `p` at least as good as `q` for someone trading against `side`'s resting orders?
      Bids descend from the highest price and asks ascend from the lowest. */
  predicate AtLeastAsGood(side: Side, p: u64, q: u64) {
    if side == Buy then p >= q else p <= q
  }

  /** Does a taker limited to `limit` reach an order resting at `resting`? */
  predicate Crosses(takerSide: Side, limit: Option<u64>, resting: u64) {
    limit.None? || AtLeastAsGood(takerSide.Opposite(), resting, limit.value)
  }

  /** `floor(price * qty / PRICE_SCALE)`, or `None` when it does not fit u64. */
  function Notional(price: u64, qty: u64): Option<u64> {
    var value := (price * qty) / PRICE_SCALE;
    if value <= MAX_U64 then Some(value) else None
  }

  /** A zero step divides nothing. */
  predicate IsMultipleOf(value: u64, step: u64) {
    step != 0 && value % step == 0
  }

  function CollarBand(market: MarketConfig, reference: u64): (u64, u64) {
    var deviation := (reference * market.collarBps) / BPS_DENOMINATOR;
    (SaturatingSub(reference, deviation), Min(reference + deviation, MAX_U64))
  }
}

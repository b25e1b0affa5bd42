/**
 The evidence one reconciliation step sees, and the pure checks made on it.
 Money and sizes are exact rationals. Where the source compares the printed form
 of a number, the printed form is carried next to the value.
 */
module VenueEvidence {
  import opened Wrappers

  const MAX_NOTIONAL_USD: real := 500.0
  const MAX_AGE_MS: int := 30_000
  const MAX_ORDER_LIFETIME_MS: int := 60_000

  /** The codes that the lifecycle raises. */
  datatype Code =
    | NonceOutOfRange | NonceReuse | ExternalIdReuse | EntryAlreadyExists | CloseAlreadyExists
    | CancellationAlreadyExists | LifecycleIsHalted | LifecycleStateMismatch | IntentNotPrepared
    | IntentNotFound | IntentNotClaimed | EntryNotClaimed | EntryNotReconciled | OutstandingIntent
    | CancelKindInvalid | Expired | ActionRouteMismatch | TerminalEvidenceRequiresReconciliation
    | RestRoundsRequired | RestRoundsNotOrdered | RestRoundsDisagree | StaleEvidence
    | StreamDisconnected | StreamGap | TemporalDisagreement
    | DepthInsufficient | BookLevelInvalid | BookOrderInvalid | BookCrossed
    | MarketInactive | RfqForbidden | OffHoursForbidden | PerpetualRequired | AccountInactive
    | CollateralMismatch | MinimumStepMismatch | OneStepQtyRequired | PriceOffGrid
    | OrderVectorMismatch | CloseVectorMismatch | NotionalCap | FeeMismatch | LeverageInvalid
    | BalanceInsufficient | OpenOrderPresent | NotFlat
    | ExternalIdSettlementHashMismatch | LimitIocRequired | LimitIocFlagsInvalid
    | PriceBoundRequired | OrderAmountInvalid | ShortExpiryRequired | OrderWireInvalid
    | AccountIdentityMismatch | MarketIdentityMismatch
    | AuthoritativePositionRequired | PositionDisagreement | PositionBindingMismatch
    | PositionEvidenceMismatch | PositionSizeMismatch
    | OrderBindingMismatch | FillBindingMismatch | FillArithmeticMismatch | OrderArithmeticMismatch
    | OrderOpenContradiction | StatusHistoryContradiction | OrderFillContradiction
    | FillPositionContradiction | CancelUnresolved | CancelNoFillContradiction | CancelFillMissing
    | CancelFillPositionContradiction | FinalHistoryMismatch | FinalFillMismatch | UnreconciledFill
    | CloseOrderOpenContradiction | CloseStatusHistoryContradiction | CloseNotFilled
    | CloseFillMissing | CloseFillMismatch | EntryHistoryMissing | EntryCloseFillMismatch
    | ClosePositionNotFlat | UnexplainedFill

  /** A decimal as stored: its value and its printed form. */
  datatype Decimal = Decimal(value: real, text: string)

  datatype Side = Buy | Sell
  datatype PositionSide = Long | Short
  datatype OrderStatus = Filled | PartiallyFilled | Cancelled | Rejected | OtherStatus(text: string)
  datatype Mode = Stream | RestFallback

  function Opposite(side: Side): Side {
    if side.Buy? then Sell else Buy
  }

  /** The position a side opens. */
  function OpenedBy(side: Side): PositionSide {
    if side.Buy? then Long else Short
  }

  /** One order row; `wire` stands for the columns that are compared but never interpreted. */
  datatype Order = Order(
    id: int, accountId: int, externalId: string, market: string, orderType: string, side: Option<Side>,
    status: OrderStatus, price: string, qty: string, averagePrice: Option<real>, filledQty: real,
    cancelledQty: real, reduceOnly: bool, postOnly: bool, payedFee: real, expiryTime: int,
    timeInForce: string, wire: string)

  datatype Fill = Fill(
    id: int, accountId: int, externalId: string, market: string, orderId: int, side: Option<Side>,
    price: real, qty: real, value: real, fee: real, isTaker: bool, isTrade: bool, wire: string)

  datatype Position = Position(
    accountId: int, market: string, side: Option<PositionSide>, isOpened: bool, leverage: real, size: Decimal,
    value: real, openPrice: real, markPrice: real, unrealisedPnl: real, wire: string)

  datatype Level = Level(price: real, qty: real)
  datatype FeeRow = FeeRow(market: string, takerFeeRate: real, wire: string)
  datatype LeverageRow = LeverageRow(market: string, leverage: real, wire: string)
  datatype Balance = Balance(collateralName: string, availableForTrade: real, wire: string)

  datatype Market = Market(
    active: bool, isRfq: bool, isOffHours: bool, perpetual: bool, collateralAssetName: string,
    minOrderSize: real, minOrderSizeChange: real, minPriceChange: real, maxLeverage: real, markPrice: real)

  /** A signed order; `settlementAccepted` is the verdict of the signature and key format tests. */
  datatype OrderVector = OrderVector(
    externalId: string, settlementHash: string, nonce: int, market: string, side: Option<Side>,
    orderType: string, qty: Decimal, price: Decimal, reduceOnly: bool, postOnly: bool,
    timeInForce: string, expiryMs: int, fee: Decimal, settlement: string, settlementAccepted: bool)

  /** The unsigned request body kept with an order intent. */
  datatype Payload = Payload(
    id: string, market: string, orderType: string, side: Side, qty: string, price: string,
    reduceOnly: bool, postOnly: bool, timeInForce: string, expiryMs: int, fee: Decimal, nonce: int,
    settlement: string)

  datatype RestRound = RestRound(
    observedAtMs: int, serverTimeMs: int, balance: Balance, fees: seq<FeeRow>, leverage: seq<LeverageRow>,
    openOrders: seq<Order>, positions: seq<Position>, orderStatus: Option<Order>, orderHistory: seq<Order>,
    trades: seq<Fill>, fingerprint: string)

  datatype Evidence = Evidence(
    nowMs: int, serverTimeMs: int, accountObservedMs: int, bookEventMs: int, streamEventMs: int,
    streamReceivedMs: int, connected: bool, gapFree: bool, accountId: int, accountActive: bool,
    l2Key: string, marketName: string, market: Market, bids: seq<Level>, asks: seq<Level>,
    balance: Balance, fees: seq<FeeRow>, leverage: seq<LeverageRow>, openOrders: seq<Order>,
    positions: seq<Position>, orderStatus: Option<Order>, orderHistory: seq<Order>, fills: seq<Fill>,
    streamPositions: seq<Position>, entryVector: OrderVector, closeVector: OrderVector,
    restRounds: seq<RestRound>, mode: Mode)
  {
    predicate Recent(stamp: int) {
      0 <= nowMs - stamp <= MAX_AGE_MS
    }

    predicate Fresh() {
      if mode.RestFallback? then
        (forall round <- restRounds :: Recent(round.observedAtMs) && Recent(round.serverTimeMs)) && Recent(bookEventMs)
      else
        Recent(accountObservedMs) && Recent(bookEventMs) && Recent(streamEventMs) && Recent(streamReceivedMs)
    }

    /** At least one of the three clocks has reached the instant. */
    predicate SomeClockReached(expiryMs: int) {
      serverTimeMs >= expiryMs || streamEventMs >= expiryMs || nowMs >= expiryMs
    }

    /** All three clocks are strictly past the instant. */
    predicate EveryClockPast(expiryMs: int) {
      serverTimeMs > expiryMs && streamEventMs > expiryMs && nowMs > expiryMs
    }
  }

  /** value > 0 and a whole number of steps. The normalizer never passes on a zero step. */
  predicate OnGrid(value: real, step: real) {
    value > 0.0 && step != 0.0 && (value / step).Floor as real == value / step
  }

  function ValidateCommon(ev: Evidence): Result<(), Code> {
    if ev.mode.RestFallback? then
      var _ :- Need(|ev.restRounds| == 2, RestRoundsRequired);
      var first, latest := ev.restRounds[0], ev.restRounds[1];
      var _ :- Need(first.observedAtMs < latest.observedAtMs, RestRoundsNotOrdered);
      var _ :- Need(first.fingerprint == latest.fingerprint, RestRoundsDisagree);
      var _ :- Need(
        && ev.openOrders == latest.openOrders
        && ev.positions == latest.positions
        && ev.orderStatus == latest.orderStatus
        && ev.orderHistory == latest.orderHistory
        && ev.fills == latest.trades
        && ev.balance == latest.balance
        && ev.fees == latest.fees
        && ev.leverage == latest.leverage, RestRoundsDisagree);
      Need(ev.Fresh(), StaleEvidence)
    else
      var _ :- Need(ev.connected, StreamDisconnected);
      var _ :- Need(ev.gapFree, StreamGap);
      var _ :- Need(ev.Fresh(), StaleEvidence);
      Need(0 <= ev.nowMs - ev.serverTimeMs <= MAX_AGE_MS, TemporalDisagreement)
  }

  function LevelQty(levels: seq<Level>): real {
    if levels == [] then 0.0 else levels[0].qty + LevelQty(levels[1..])
  }

  function ValidateLevels(levels: seq<Level>, tick: real, step: real, descending: bool): Result<(), Code> {
    var _ :- Need(levels != [] && forall level <- levels :: level.qty != 0.0, DepthInsufficient);
    var _ :- Need(forall level <- levels :: OnGrid(level.price, tick) && OnGrid(level.qty, step), BookLevelInvalid);
    Need(forall i | 0 < i < |levels| ::
        if descending then levels[i - 1].price > levels[i].price else levels[i - 1].price < levels[i].price,
      BookOrderInvalid)
  }

  /** The levels an order with this limit could trade against. */
  function Executable(levels: seq<Level>, side: Option<Side>, limit: real): seq<Level> {
    if levels == [] then []
    else
      var reachable := if side == Some(Buy) then levels[0].price <= limit else levels[0].price >= limit;
      (if reachable then [levels[0]] else []) + Executable(levels[1..], side, limit)
  }

  function BuildLimitIocOrder(v: OrderVector, serverTimeMs: int): Result<Payload, Code> {
    var _ :- Need(1 <= v.nonce <= 0x7FFF_FFFF, NonceOutOfRange);
    var _ :- Need(v.externalId == v.settlementHash, ExternalIdSettlementHashMismatch);
    var _ :- Need(v.orderType == "LIMIT" && v.timeInForce == "IOC", LimitIocRequired);
    var _ :- Need(!v.postOnly, LimitIocFlagsInvalid);
    var _ :- Need(v.price.value > 0.0, PriceBoundRequired);
    var _ :- Need(v.qty.value > 0.0 && v.fee.value >= 0.0, OrderAmountInvalid);
    var _ :- Need(0 < v.expiryMs - serverTimeMs <= MAX_ORDER_LIFETIME_MS, ShortExpiryRequired);
    var _ :- Need(v.settlementAccepted && v.side.Some?, OrderWireInvalid);
    Ok(Payload(v.externalId, v.market, "LIMIT", v.side.value, v.qty.text, v.price.text, v.reduceOnly, false,
        "IOC", v.expiryMs, v.fee, v.nonce, v.settlement))
  }

  function FirstFee(rows: seq<FeeRow>, market: string): Option<real> {
    if rows == [] then None
    else if rows[0].market == market then Some(rows[0].takerFeeRate)
    else FirstFee(rows[1..], market)
  }

  function FirstLeverage(rows: seq<LeverageRow>, market: string): Option<real> {
    if rows == [] then None
    else if rows[0].market == market then Some(rows[0].leverage)
    else FirstLeverage(rows[1..], market)
  }

  /** The gate both orders pass before they are prepared and again before they are claimed. */
  function ValidateOrderGate(ev: Evidence, v: OrderVector, qty: real, price: real): Result<real, Code> {
    var _ :- ValidateCommon(ev);
    var m := ev.market;
    var _ :- Need(m.active, MarketInactive);
    var _ :- Need(!m.isRfq, RfqForbidden);
    var _ :- Need(!m.isOffHours, OffHoursForbidden);
    var _ :- Need(m.perpetual, PerpetualRequired);
    var _ :- Need(ev.accountActive, AccountInactive);
    var _ :- Need(ev.balance.collateralName == m.collateralAssetName, CollateralMismatch);
    var minimum, step, tick := m.minOrderSize, m.minOrderSizeChange, m.minPriceChange;
    var _ :- Need(minimum > 0.0 && step > 0.0 && tick > 0.0 && minimum == step, MinimumStepMismatch);
    var _ :- Need(qty == minimum && v.qty.value == minimum, OneStepQtyRequired);
    var _ :- Need(OnGrid(price, tick), PriceOffGrid);
    var _ :- Need(price == v.price.value, OrderVectorMismatch);
    var _ :- BuildLimitIocOrder(v, ev.serverTimeMs);
    var notional := qty * price;
    var _ :- Need(notional <= MAX_NOTIONAL_USD, NotionalCap);
    var _ :- ValidateLevels(ev.bids, tick, step, true);
    var _ :- ValidateLevels(ev.asks, tick, step, false);
    var _ :- Need(|ev.bids| > 0 && |ev.asks| > 0 && ev.bids[0].price < ev.asks[0].price, BookCrossed);
    var _ :- Need(LevelQty(ev.bids) >= step && LevelQty(ev.asks) >= step, DepthInsufficient);
    var counter := if v.side == Some(Buy) then ev.asks else ev.bids;
    var _ :- Need(LevelQty(Executable(counter, v.side, price)) >= qty, DepthInsufficient);
    var fee := FirstFee(ev.fees, ev.marketName);
    var _ :- Need(fee.Some? && fee.value >= 0.0 && fee.value == v.fee.value, FeeMismatch);
    var leverage := FirstLeverage(ev.leverage, ev.marketName);
    var _ :- Need(leverage.Some? && 0.0 < leverage.value <= m.maxLeverage, LeverageInvalid);
    var _ :- Need(ev.balance.availableForTrade >= notional * (1.0 + fee.value), BalanceInsufficient);
    var _ :- Need(ev.openOrders == [], OpenOrderPresent);
    Ok(fee.value)
  }

  function ValidateEntry(ev: Evidence, qty: real, price: real): Result<(), Code> {
    var _ :- Need(ev.openOrders == [] && ev.positions == [], NotFlat);
    var entryFee :- ValidateOrderGate(ev, ev.entryVector, qty, price);
    var close := ev.closeVector;
    var closeFee :- ValidateOrderGate(ev, close, close.qty.value, close.price.value);
    var _ :- Need(close.qty.value == qty, OneStepQtyRequired);
    var required := qty * price * (1.0 + entryFee) + close.qty.value * close.price.value * (1.0 + closeFee);
    Need(ev.balance.availableForTrade >= required, BalanceInsufficient)
  }

  /** The single position both reports agree on. */
  function AuthoritativePosition(ev: Evidence): Result<Position, Code> {
    var _ :- Need(|ev.positions| == 1, AuthoritativePositionRequired);
    if ev.mode.RestFallback? then Ok(ev.positions[0])
    else
      var _ :- Need(|ev.streamPositions| == 1, AuthoritativePositionRequired);
      var _ :- Need(ev.positions[0] == ev.streamPositions[0], PositionDisagreement);
      Ok(ev.positions[0])
  }

  function FirstOrder(rows: seq<Order>, externalId: string): Option<Order> {
    if rows == [] then None
    else if rows[0].externalId == externalId then Some(rows[0])
    else FirstOrder(rows[1..], externalId)
  }

  /** The last row wins, as it does when rows are collected into a dictionary. */
  function LastOrder(rows: seq<Order>, externalId: string): Option<Order> {
    if rows == [] then None
    else if rows[|rows| - 1].externalId == externalId then Some(rows[|rows| - 1])
    else LastOrder(rows[..|rows| - 1], externalId)
  }

  /** The fills that name this venue order. */
  function MatchingFills(fills: seq<Fill>, orderId: int): seq<Fill> {
    if fills == [] then []
    else (if fills[0].orderId == orderId then [fills[0]] else []) + MatchingFills(fills[1..], orderId)
  }

  function FillQty(fills: seq<Fill>): real {
    if fills == [] then 0.0 else fills[0].qty + FillQty(fills[1..])
  }

  function FillValue(fills: seq<Fill>): real {
    if fills == [] then 0.0 else fills[0].value + FillValue(fills[1..])
  }

  function FillFee(fills: seq<Fill>): real {
    if fills == [] then 0.0 else fills[0].fee + FillFee(fills[1..])
  }

  /** Sum of price times quantity. */
  function WeightedValue(fills: seq<Fill>): real {
    if fills == [] then 0.0 else fills[0].price * fills[0].qty + WeightedValue(fills[1..])
  }

  function FillIds(fills: seq<Fill>): set<int> {
    set f <- fills :: f.id
  }

  /** A buy adds its quantity and a sale removes it. */
  function SignedQty(fills: seq<Fill>): real {
    if fills == [] then 0.0
    else
      (match fills[0].side case Some(Buy) => fills[0].qty case Some(Sell) => -fills[0].qty case None => 0.0)
      + SignedQty(fills[1..])
  }
}

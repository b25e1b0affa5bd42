/**
 What the sealed runner can see and do at the venue: one complete REST observation, the checks
 that bind its rows to a persisted intent, and the outside world that receives requests.
 */
module SealedVenue {
  import opened Wrappers
  import opened VenueEvidence

  const TARGET_MARKET: string := "BTC-USD"
  const MAX_FRESHNESS_MS: int := 5_000
  const SHORT_EXPIRY_MS: int := 15_000
  const MAX_RECONCILE_READS: nat := 5

  datatype Role = EntryOrder | CancelRequest | CloseOrder
  datatype RowState =
    | Prepared | Claimed | Accepted | Ambiguous | RejectedByVenue
    | EntryReconciled | CloseReconciled | EntryNoFill | CloseNoFill | Reconciled

  datatype SignedPayload = SignedPayload(
    id: string, market: string, orderType: string, side: Side, qty: real, price: real, reduceOnly: bool,
    postOnly: bool, timeInForce: string, expiryMs: int, fee: real, nonce: int, protection: string,
    starkKey: string, vault: int, optionalFields: bool, settlement: string)

  /** An ideal digest: equal exactly for equal payloads. */
  datatype Digest = DigestOf(payload: SignedPayload)

  datatype Identity = Identity(accountId: int, l2Key: string, vault: int)

  datatype Row = Row(
    id: string, role: Role, state: RowState, nonce: int, externalId: string, settlementIdentity: string,
    expiryMs: int, side: Option<Side>, qty: real, price: real, fee: real, reduceOnly: bool,
    targetId: Option<string>, venueOrderId: Option<string>, payload: Option<SignedPayload>,
    payloadDigest: Option<Digest>, dispatchCount: nat)
  {
    predicate IsOrder() {
      !role.CancelRequest?
    }
  }

  datatype VenueStatus = New | Untriggered | PartlyFilled | AllFilled | Canceled | Lapsed | Refused | Unknown

  datatype VenueOrder = VenueOrder(
    id: string, accountId: int, market: string, externalId: Option<string>, externalOrderId: Option<string>,
    orderType: string, side: Option<Side>, status: VenueStatus, price: real, qty: real, filledQty: real,
    cancelledQty: real, reduceOnly: bool, postOnly: bool, timeInForce: string, expiryTime: Option<int>,
    expireTime: Option<int>)

  datatype Trade = Trade(
    id: int, accountId: int, market: string, externalId: Option<string>, externalOrderId: Option<string>,
    orderId: string, side: Option<Side>, price: real, qty: real, value: real, fee: real, isTaker: bool, isTrade: bool)

  datatype OpenPosition = OpenPosition(
    accountId: int, market: string, isOpened: bool, side: Option<PositionSide>, size: real)

  datatype TargetMarket = TargetMarket(
    minOrderSize: real, minPriceChange: real, markPrice: real, priceCap: real, priceFloor: real, collateral: string)

  /** One complete observation; `fees` and `leverage` keep the rows of the target market. */
  datatype Observation = Observation(
    observedAtMs: int, serverTimeMs: Option<int>, bookObservedAtMs: Option<int>, receipts: seq<int>,
    accountId: int, l2Key: string, accountActive: bool, market: TargetMarket, bids: seq<Level>, asks: seq<Level>,
    collateralName: string, availableForTrade: real, fees: seq<real>, leverage: seq<real>,
    openOrders: seq<VenueOrder>, positions: seq<OpenPosition>, orderHistory: seq<VenueOrder>, trades: seq<Trade>,
    exactById: map<string, VenueOrder>, exactByExternal: map<string, seq<VenueOrder>>, fingerprint: string)

  predicate RecentlyRead(nowMs: int, stamp: int) {
    stamp > 0 && 0 <= nowMs - stamp <= MAX_FRESHNESS_MS
  }

  function ValidateFresh(obs: Observation, nowMs: int): Result<(), string> {
    Need(
      && RecentlyRead(nowMs, obs.observedAtMs)
      && (obs.serverTimeMs.Some? ==> RecentlyRead(nowMs, obs.serverTimeMs.value))
      && (obs.bookObservedAtMs.Some? ==> RecentlyRead(nowMs, obs.bookObservedAtMs.value))
      && (forall stamp <- obs.receipts :: RecentlyRead(nowMs, stamp)), "FRESH_REST_OBSERVATION_REQUIRED")
  }

  function External(primary: Option<string>, alternate: Option<string>): Result<string, string> {
    var value := if primary.Some? then primary else alternate;
    var _ :- Need(value.Some? && value.value != "", "ORDER_EXTERNAL_ID_MISSING");
    var _ :- Need(primary.None? || alternate.None? || primary == alternate, "ORDER_EXTERNAL_ID_CONTRADICTION");
    Ok(value.value)
  }

  predicate NoUnrelated(obs: Observation, who: Identity, expected: set<string>) {
    && (forall p <- obs.positions :: p.accountId == who.accountId && p.market == TARGET_MARKET)
    && (forall o <- obs.openOrders + obs.orderHistory ::
          && o.accountId == who.accountId && o.market == TARGET_MARKET
          && External(o.externalId, o.externalOrderId).Ok? && External(o.externalId, o.externalOrderId).value in expected)
    && (forall t <- obs.trades ::
          && t.accountId == who.accountId && t.market == TARGET_MARKET
          && External(t.externalId, t.externalOrderId).Ok? && External(t.externalId, t.externalOrderId).value in expected)
  }

  function OrderBinding(row: Row, o: VenueOrder, who: Identity): Result<(), string> {
    var external :- External(o.externalId, o.externalOrderId);
    var _ :- Need(
      && Some(o.id) == row.venueOrderId && o.accountId == who.accountId && external == row.externalId
      && o.market == TARGET_MARKET && o.orderType == "LIMIT" && o.side == row.side && o.reduceOnly == row.reduceOnly
      && !o.postOnly && o.timeInForce == "IOC", "ORDER_IDENTITY_MISMATCH");
    var _ :- Need(!o.status.Unknown?, "ORDER_STATUS_UNKNOWN");
    var _ :- Need(o.price == row.price, "ORDER_PRICE_MISMATCH");
    var _ :- Need(o.qty == row.qty, "ORDER_QTY_MISMATCH");
    var _ :- Need(o.filledQty >= 0.0 && o.cancelledQty >= 0.0 && o.filledQty + o.cancelledQty <= row.qty,
      "ORDER_QUANTITY_CONTRADICTION");
    var expiry := if o.expiryTime.Some? then o.expiryTime else o.expireTime;
    var _ :- Need(expiry.Some?, "ORDER_EXPIRY_MISSING");
    var _ :- Need(o.expireTime.None? || o.expireTime == expiry, "ORDER_EXPIRY_CONTRADICTION");
    Need(expiry.value == row.expiryMs, "ORDER_EXPIRY_MISMATCH")
  }

  /** The order found by venue id and by external id, which must be one and the same. */
  function MatchingVenueOrder(row: Row, obs: Observation, who: Identity): Result<Option<VenueOrder>, string> {
    var byExternal := if row.externalId in obs.exactByExternal then obs.exactByExternal[row.externalId] else [];
    if row.venueOrderId.None? then
      var _ :- Need(|byExternal| <= 1, "EXACT_EXTERNAL_ORDER_AMBIGUOUS");
      Ok(if byExternal == [] then None else Some(byExternal[0]))
    else
      var id := row.venueOrderId.value;
      if id !in obs.exactById && byExternal == [] then Ok(None)
      else
        var _ :- Need(id in obs.exactById && |byExternal| == 1, "EXACT_ORDER_RESOLUTION_INCOMPLETE");
        var _ :- Need(byExternal[0].id == obs.exactById[id].id, "EXACT_ORDER_ID_CONTRADICTION");
        var _ :- OrderBinding(row, obs.exactById[id], who);
        var _ :- OrderBinding(row, byExternal[0], who);
        Ok(Some(obs.exactById[id]))
  }

  /** What one matching trade must satisfy, the ids already taken included. */
  function TradeBinding(row: Row, t: Trade, taken: set<int>): Result<(), string> {
    var _ :- Need(t.id > 0 && t.id !in taken, "TRADE_IDENTITY_DUPLICATE");
    var _ :- Need(t.side == row.side && t.isTrade, "TRADE_BINDING_MISMATCH");
    var _ :- Need(t.isTaker, "TRADE_TAKER_REQUIRED");
    var _ :- Need(t.price > 0.0 && t.qty > 0.0 && t.fee >= 0.0 && t.value == t.price * t.qty, "TRADE_ARITHMETIC_CONTRADICTION");
    Need(!(row.side == Some(Buy) && t.price > row.price) && !(row.side == Some(Sell) && t.price < row.price),
      "TRADE_PRICE_BOUND_BREACH")
  }

  /** Whether a trade is the row's: named by both ids, by neither, or an error. */
  function TradeIsOurs(row: Row, t: Trade, who: Identity): Result<bool, string> {
    var _ :- Need(t.accountId == who.accountId && t.market == TARGET_MARKET, "UNRELATED_TRADE");
    var external :- External(t.externalId, t.externalOrderId);
    var named, placed := external == row.externalId, Some(t.orderId) == row.venueOrderId;
    var _ :- Need(named == placed, "TRADE_IDENTITY_MISMATCH");
    Ok(named)
  }

  function MatchingTradesFrom(row: Row, trades: seq<Trade>, who: Identity, taken: set<int>): Result<seq<Trade>, string> {
    if trades == [] then Ok([])
    else
      var ours :- TradeIsOurs(row, trades[0], who);
      if !ours then MatchingTradesFrom(row, trades[1..], who, taken)
      else
        var _ :- TradeBinding(row, trades[0], taken);
        var rest :- MatchingTradesFrom(row, trades[1..], who, taken + {trades[0].id});
        Ok([trades[0]] + rest)
  }

  function MatchingTrades(row: Row, obs: Observation, who: Identity): Result<seq<Trade>, string> {
    MatchingTradesFrom(row, obs.trades, who, {})
  }

  function TradeQty(trades: seq<Trade>): real {
    if trades == [] then 0.0 else trades[0].qty + TradeQty(trades[1..])
  }

  function TradeIds(trades: seq<Trade>): set<int> {
    set t <- trades :: t.id
  }

  predicate HoldsPosition(positions: seq<OpenPosition>, who: Identity, side: PositionSide, size: real) {
    && |positions| == 1
    && positions[0].accountId == who.accountId && positions[0].market == TARGET_MARKET && positions[0].isOpened
    && positions[0].side == Some(side) && positions[0].size == size && size > 0.0
  }

  /** The loop that collects matching trades, with its growing list and its set of ids. */
  method CollectTrades(row: Row, obs: Observation, who: Identity) returns (r: Result<seq<Trade>, string>)
    ensures r == MatchingTrades(row, obs, who)
  {
    var result: seq<Trade>, ids: set<int> := [], {};
    ghost var all := MatchingTrades(row, obs, who);
    assert obs.trades[0..] == obs.trades;
    for k := 0 to |obs.trades|
      invariant var rest := MatchingTradesFrom(row, obs.trades[k..], who, ids);
        if rest.Err? then all == rest else all.Ok? && all.value == result + rest.value
    {
      var t := obs.trades[k];
      assert obs.trades[k..][1..] == obs.trades[k + 1..];
      var ours :- TradeIsOurs(row, t, who);
      if ours {
        var _ :- TradeBinding(row, t, ids);
        ghost var rest := MatchingTradesFrom(row, obs.trades[k + 1..], who, ids + {t.id});
        assert rest.Ok? ==> result + ([t] + rest.value) == result + [t] + rest.value;
        ids, result := ids + {t.id}, result + [t];
      }
    }
    assert all.value == result;
    return Ok(result);
  }

  /** Collected trades have distinct ids, the row's side, and prices inside its limit. */
  lemma {:induction false} MatchingTradesAreBound(row: Row, trades: seq<Trade>, who: Identity, taken: set<int>)
    requires MatchingTradesFrom(row, trades, who, taken).Ok?
    ensures var found := MatchingTradesFrom(row, trades, who, taken).value;
      && (forall t <- found ::
            && t in trades && t.id !in taken && t.side == row.side && t.qty > 0.0 && Some(t.orderId) == row.venueOrderId
            && (row.side == Some(Buy) ==> t.price <= row.price) && (row.side == Some(Sell) ==> t.price >= row.price))
      && (forall i, j | 0 <= i < j < |found| :: found[i].id != found[j].id)
  {
    if trades != [] {
      if TradeIsOurs(row, trades[0], who).value {
        MatchingTradesAreBound(row, trades[1..], who, taken + {trades[0].id});
        var rest := MatchingTradesFrom(row, trades[1..], who, taken + {trades[0].id}).value;
        assert forall i | 0 <= i < |rest| :: rest[i] in rest;
      } else {
        MatchingTradesAreBound(row, trades[1..], who, taken);
      }
      assert forall t <- trades[1..] :: t in trades;
    }
  }

  function TopLevel(levels: seq<Level>): Result<Level, string> {
    var _ :- Need(levels != [], "BOOK_SCHEMA");
    Ok(levels[0])
  }

  function ValidateLimitPrice(m: TargetMarket, side: Side, price: real): Result<(), string> {
    var _ :- Need(m.markPrice > 0.0, "MARK_PRICE_INVALID");
    var _ :- Need(0.0 <= m.priceCap <= 1.0, "PRICE_CAP_INVALID");
    var _ :- Need(0.0 <= m.priceFloor <= 1.0, "PRICE_FLOOR_INVALID");
    var _ :- Need(m.minPriceChange > 0.0, "PRICE_TICK_INVALID");
    var _ :- Need(OnGrid(price, m.minPriceChange), "PRICE_OFF_GRID");
    Need(if side.Buy? then price <= m.markPrice * (1.0 + m.priceCap) else price >= m.markPrice * (1.0 - m.priceFloor),
      "PRICE_BOUND_INVALID")
  }

  /** The signed payload is this very order: identity, terms and expiry. */
  predicate Binds(row: Row, p: SignedPayload) {
    && p.id == row.externalId && p.market == TARGET_MARKET && p.orderType == "LIMIT" && Some(p.side) == row.side
    && p.qty == row.qty && p.price == row.price && p.reduceOnly == row.reduceOnly && !p.postOnly
    && p.timeInForce == "IOC" && p.expiryMs == row.expiryMs && p.fee == row.fee && p.nonce == row.nonce
    && p.protection == "ACCOUNT"
  }

  function ValidateSignedPayload(row: Row, p: SignedPayload, who: Identity): Result<(), string> {
    var _ :- Need(!p.optionalFields, "SIGNED_ORDER_OPTIONAL_FIELDS");
    var _ :- Need(Binds(row, p), "SIGNED_ORDER_BINDING");
    Need(p.starkKey == who.l2Key && p.vault == who.vault, "SIGNED_SETTLEMENT_BINDING")
  }
}

/**
 The durable intent table: its rows, the checks that bind venue evidence to a row,
 and the three transactions that change it, as functions on values.
 */
module Intents {
  import opened Wrappers
  import opened VenueEvidence

  datatype Kind = Entry | Cancel | MassCancel | Close

  datatype IntentState =
    | Prepared | Claimed
    | EntryReconciled | EntryCancelledNoFill
    | ReconciledCancelledNoFill | ReconciledNoCancelEffect | SupersededNotDispatched
    | CloseReconciled | CloseRejected

  datatype Word =
    | Flat | EntryPrepared | EntryAmbiguous | CancelPrepared | CancelAmbiguous | FlatPendingExpiry
    | Exposed | ClosePrepared | CloseAmbiguous | Complete
    | HaltedSubMinimumResidual | HaltedOffGridResidual | HaltedPartialFillUncertain
    | HaltedCloseRejected | HaltedUnexplainedFill | HaltedReconciliationContradiction
  {
    predicate IsHalted() {
      HaltedSubMinimumResidual? || HaltedOffGridResidual? || HaltedPartialFillUncertain?
      || HaltedCloseRejected? || HaltedUnexplainedFill? || HaltedReconciliationContradiction?
    }
  }

  /** One row; `payload` is absent on cancellations, whose request body is not interpreted. */
  datatype Intent = Intent(
    id: string, kind: Kind, state: IntentState, nonce: Option<int>, externalId: string,
    payload: Option<Payload>, expiryMs: int, accountId: int, l2Key: string, market: string,
    side: Option<Side>, qty: Decimal, price: Decimal, reduceOnly: bool, targetId: Option<string>,
    dispatchCount: nat)
  {
    predicate IsCancellation() {
      kind.Cancel? || kind.MassCancel?
    }

    predicate IsOrder() {
      kind.Entry? || kind.Close?
    }

    predicate Outstanding() {
      state.Prepared? || state.Claimed?
    }
  }

  datatype Store = Store(rows: seq<Intent>, word: Word)

  // ----- Reading the table -----

  function IndexOf(rows: seq<Intent>, id: string): (at: Option<nat>)
    ensures at.Some? ==> at.value < |rows| && rows[at.value].id == id
    ensures at.None? ==> forall row <- rows :: row.id != id
  {
    if rows == [] then None
    else if rows[0].id == id then Some(0)
    else match IndexOf(rows[1..], id)
      case None => None
      case Some(at) => Some(at + 1)
  }

  function Get(s: Store, id: string): Result<Intent, Code> {
    match IndexOf(s.rows, id)
    case None => Err(IntentNotFound)
    case Some(at) => Ok(s.rows[at])
  }

  /** `store.get(intent.target_id or "")`. */
  function GetTarget(s: Store, intent: Intent): Result<Intent, Code> {
    Get(s, if intent.targetId.Some? then intent.targetId.value else "")
  }

  function MaxExpiry(rows: seq<Intent>): int {
    if rows == [] then 0
    else if |rows| == 1 then rows[0].expiryMs
    else
      var rest := MaxExpiry(rows[1..]);
      if rows[0].expiryMs > rest then rows[0].expiryMs else rest
  }

  predicate NoneOutstanding(rows: seq<Intent>) {
    forall row <- rows :: !row.Outstanding()
  }

  // ----- Transactions -----

  function InsertTx(s: Store, intent: Intent, expected: Word, next: Word): Result<Store, Code> {
    var _ :- Need(s.word == expected, LifecycleStateMismatch);
    var _ :- Need(intent.nonce.None? || forall row <- s.rows :: row.nonce != intent.nonce, NonceReuse);
    var _ :- Need(forall row <- s.rows :: row.id != intent.id && row.externalId != intent.externalId, ExternalIdReuse);
    Ok(Store(s.rows + [intent], next))
  }

  function ClaimTx(s: Store, id: string, expected: Word, next: Word): Result<Store, Code> {
    var _ :- Need(s.word == expected, LifecycleStateMismatch);
    match IndexOf(s.rows, id)
    case None => Err(IntentNotPrepared)
    case Some(at) =>
      var row := s.rows[at];
      var _ :- Need(row.state.Prepared?, IntentNotPrepared);
      Ok(Store(s.rows[at := row.(state := Claimed, dispatchCount := row.dispatchCount + 1)], next))
  }

  /** Set the state of each named row in turn. */
  function WithStates(rows: seq<Intent>, states: seq<(string, IntentState)>): Result<seq<Intent>, Code>
    decreases |states|
  {
    if states == [] then Ok(rows)
    else match IndexOf(rows, states[0].0)
      case None => Err(IntentNotFound)
      case Some(at) => WithStates(rows[at := rows[at].(state := states[0].1)], states[1..])
  }

  function SetStatesTx(s: Store, states: seq<(string, IntentState)>, word: Word): Result<Store, Code> {
    var rows :- WithStates(s.rows, states);
    Ok(Store(rows, word))
  }

  // ----- Binding evidence to a row -----

  function AssertBinding(intent: Intent, ev: Evidence): Result<(), Code> {
    var _ :- Need(intent.accountId == ev.accountId && intent.l2Key == ev.l2Key, AccountIdentityMismatch);
    Need(intent.market == ev.marketName, MarketIdentityMismatch)
  }

  function ValidateIntentVector(intent: Intent, ev: Evidence): Result<(), Code> {
    var v := if intent.kind.Entry? then ev.entryVector else ev.closeVector;
    var payload :- BuildLimitIocOrder(v, ev.serverTimeMs);
    Need(
      && Some(v.nonce) == intent.nonce
      && v.externalId == intent.externalId
      && v.market == intent.market
      && v.side == intent.side
      && v.qty.value == intent.qty.value
      && v.price.value == intent.price.value
      && v.expiryMs == intent.expiryMs
      && v.reduceOnly == intent.reduceOnly
      && Some(payload) == intent.payload, OrderVectorMismatch)
  }

  /** The status row and the history row of an order, when present. */
  function MatchingOrder(intent: Intent, ev: Evidence): (Option<Order>, Option<Order>) {
    (if ev.orderStatus.Some? && ev.orderStatus.value.externalId == intent.externalId then ev.orderStatus else None,
     FirstOrder(ev.orderHistory, intent.externalId))
  }

  predicate OrderBinds(intent: Intent, order: Order) {
    && intent.payload.Some?
    && order.accountId == intent.accountId
    && order.externalId == intent.externalId
    && order.market == intent.market
    && order.orderType == intent.payload.value.orderType
    && order.side == intent.side
    && order.price == intent.price.text
    && order.qty == intent.qty.text
    && order.reduceOnly == intent.reduceOnly
    && order.postOnly == intent.payload.value.postOnly
    && order.expiryTime == intent.expiryMs
    && order.timeInForce == intent.payload.value.timeInForce
  }

  predicate FillBinds(intent: Intent, order: Order, f: Fill) {
    && f.accountId == intent.accountId
    && f.externalId == order.externalId
    && f.market == intent.market
    && f.side == intent.side
    && f.orderId == order.id
    && f.qty > 0.0
    && f.price > 0.0
    && f.isTaker
    && f.isTrade
  }

  /** Value, fee and the limit of the order all agree with the fill. */
  predicate FillArithmetic(intent: Intent, rate: real, f: Fill) {
    && f.value == f.price * f.qty
    && f.fee >= 0.0
    && f.fee == f.value * rate
    && (intent.side == Some(Buy) ==> f.price <= intent.price.value)
    && (intent.side == Some(Sell) ==> f.price >= intent.price.value)
  }

  /** The error of the first bad fill. */
  function FillsError(intent: Intent, order: Order, rate: real, fills: seq<Fill>): Option<Code> {
    if fills == [] then None
    else if !FillBinds(intent, order, fills[0]) then Some(FillBindingMismatch)
    else if !FillArithmetic(intent, rate, fills[0]) then Some(FillArithmeticMismatch)
    else FillsError(intent, order, rate, fills[1..])
  }

  predicate AverageIs(average: Option<real>, value: real, qty: real) {
    average.Some? && qty != 0.0 && average.value == value / qty
  }

  /** What the totals must be for the declared status. */
  predicate OrderArithmetic(intent: Intent, order: Order, anyFill: bool, qty: real, value: real) {
    match order.status
    case Filled =>
      qty == intent.qty.value == order.filledQty && order.cancelledQty == 0.0 && AverageIs(order.averagePrice, value, qty)
    case PartiallyFilled =>
      && 0.0 < qty <= intent.qty.value && order.filledQty == qty && order.cancelledQty >= 0.0
      && order.filledQty + order.cancelledQty <= intent.qty.value && AverageIs(order.averagePrice, value, qty)
    case Cancelled =>
      !anyFill && order.filledQty == 0.0 && order.cancelledQty == intent.qty.value && order.averagePrice.None?
    case _ => true
  }

  function ValidatedFills(intent: Intent, order: Order, ev: Evidence): Result<seq<Fill>, Code> {
    var _ :- Need(OrderBinds(intent, order), OrderBindingMismatch);
    var fills := MatchingFills(ev.fills, order.id);
    match FillsError(intent, order, intent.payload.value.fee.value, fills)
    case Some(code) => Err(code)
    case None =>
      var _ :- Need(order.payedFee == FillFee(fills), FillArithmeticMismatch);
      var _ :- Need(OrderArithmetic(intent, order, fills != [], FillQty(fills), FillValue(fills)), OrderArithmeticMismatch);
      Ok(fills)
  }

  function Abs(x: real): real {
    if x < 0.0 then -x else x
  }

  function ValidatePositionBinding(intent: Intent, position: Position, ev: Evidence): Result<(), Code> {
    var expected := if intent.side == Some(Buy) then Long else Short;
    var _ :- Need(
      && position.accountId == intent.accountId
      && position.market == intent.market
      && position.side == Some(expected)
      && position.isOpened, PositionBindingMismatch);
    var leverage := FirstLeverage(ev.leverage, intent.market);
    var history := FirstOrder(ev.orderHistory, intent.externalId);
    var _ :- Need(leverage.Some? && history.Some?, PositionEvidenceMismatch);
    var fills :- ValidatedFills(intent, history.value, ev);
    var size, mark := position.size.value, position.markPrice;
    var pnl := if expected.Long? then size * (mark - position.openPrice) else size * (position.openPrice - mark);
    var _ :- Need(
      && size > 0.0
      && position.value > 0.0
      && position.openPrice > 0.0
      && mark > 0.0
      && position.leverage > 0.0
      && fills != []
      && size == FillQty(fills)
      && position.value == Abs(size * mark)
      && FillQty(fills) != 0.0
      && position.openPrice == WeightedValue(fills) / FillQty(fills)
      && mark == ev.market.markPrice
      && position.unrealisedPnl == pnl
      && position.leverage == leverage.value, PositionEvidenceMismatch);
    Need(position.value <= MAX_NOTIONAL_USD, NotionalCap)
  }

  /** Orders named by the evidence, whatever list they come from. */
  function ObservedOrders(ev: Evidence): seq<Order> {
    ev.openOrders + ev.orderHistory + (if ev.orderStatus.Some? then [ev.orderStatus.value] else [])
  }

  /** External ids of the persisted entry and close. */
  function OrderIds(rows: seq<Intent>): set<string> {
    set row <- rows | row.IsOrder() :: row.externalId
  }

  predicate OneOrderPerVenueId(orders: seq<Order>) {
    forall x <- orders, y <- orders :: x.id == y.id ==> x.externalId == y.externalId
  }

  predicate FillBindsPersisted(orders: seq<Order>, persisted: set<string>, f: Fill) {
    exists order <- orders :: order.id == f.orderId && order.externalId in persisted && f.externalId == order.externalId
  }

  predicate AllFillsBindPersistedOrders(rows: seq<Intent>, ev: Evidence) {
    && OneOrderPerVenueId(ObservedOrders(ev))
    && forall f <- ev.fills :: FillBindsPersisted(ObservedOrders(ev), OrderIds(rows), f)
  }
}

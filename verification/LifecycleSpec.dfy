/**
 Every lifecycle operation as a function from the stored table, its arguments and
 the evidence to the list of tables it commits, one per transaction.
 */
module LifecycleSpec {
  import opened Wrappers
  import opened VenueEvidence
  import opened Intents

  datatype ReconciliationResult = ReconciliationResult(
    word: Word, complete: bool, filledQty: real, positionQty: real,
    externalIds: set<string>, fillIds: set<int>)

  /** The tables an operation commits, in order, and what it returns or raises. */
  datatype Outcome<+T> = Outcome(commits: seq<Store>, result: Result<T, Code>) {
    /** What the disk holds once the operation has finished. */
    function Final(before: Store): Store {
      if commits == [] then before else commits[|commits| - 1]
    }
  }

  datatype OrderArgs = OrderArgs(
    nonce: int, settlementHash: string, market: string, side: Side, qty: Decimal, price: Decimal,
    expiryMs: int, reduceOnly: bool)

  datatype CloseArgs = CloseArgs(entryId: string, nonce: int, settlementHash: string, price: Decimal, expiryMs: int)

  function ValidateNonce(nonce: int): Result<(), Code> {
    Need(1 <= nonce <= 0x7FFF_FFFF, NonceOutOfRange)
  }

  /** The first row that already uses the nonce or the external id decides. */
  function IdentityFree(rows: seq<Intent>, nonce: int, externalId: string): Result<(), Code> {
    if rows == [] then Ok(())
    else
      var _ :- Need(rows[0].nonce != Some(nonce), NonceReuse);
      var _ :- Need(rows[0].externalId != externalId, ExternalIdReuse);
      IdentityFree(rows[1..], nonce, externalId)
  }

  function RequireWord(s: Store, expected: Word): Result<(), Code> {
    var _ :- Need(!s.word.IsHalted(), LifecycleIsHalted);
    Need(s.word == expected, LifecycleStateMismatch)
  }

  // ----- Preparing -----

  function EntryIntent(s: Store, a: OrderArgs, ev: Evidence): Result<Intent, Code> {
    var _ :- ValidateNonce(a.nonce);
    var _ :- Need(a.qty.value * a.price.value <= MAX_NOTIONAL_USD, NotionalCap);
    var _ :- IdentityFree(s.rows, a.nonce, a.settlementHash);
    var _ :- Need(forall row <- s.rows :: !row.kind.Entry?, EntryAlreadyExists);
    var _ :- RequireWord(s, Flat);
    var _ :- ValidateEntry(ev, a.qty.value, a.price.value);
    var v := ev.entryVector;
    var _ :- Need(
      && a.nonce == v.nonce && a.settlementHash == v.externalId && a.market == v.market && Some(a.side) == v.side
      && a.expiryMs == v.expiryMs && !a.reduceOnly, OrderVectorMismatch);
    var payload :- BuildLimitIocOrder(v, ev.serverTimeMs);
    Ok(Intent(a.settlementHash, Entry, Prepared, Some(a.nonce), a.settlementHash, Some(payload), a.expiryMs,
        ev.accountId, ev.l2Key, a.market, Some(a.side), a.qty, a.price, false, None, 0))
  }

  function CancellationId(kind: Kind, entry: Intent): string {
    (if kind.Cancel? then "CANCEL:" else "MASS_CANCEL:") + entry.externalId
  }

  function CancellationIntent(s: Store, entryId: string, kind: Kind, ev: Evidence): Result<Intent, Code> {
    var _ :- Need(kind.Cancel? || kind.MassCancel?, CancelKindInvalid);
    var entry :- Get(s, entryId);
    var _ :- Need(entry.kind.Entry? && entry.state.Claimed?, EntryNotClaimed);
    var _ :- RequireWord(s, EntryAmbiguous);
    var _ :- ValidateCommon(ev);
    var _ :- AssertBinding(entry, ev);
    var _ :- Need(forall row <- s.rows :: !(row.IsCancellation() && row.targetId == Some(entry.id)), CancellationAlreadyExists);
    var id := CancellationId(kind, entry);
    Ok(Intent(id, kind, Prepared, None, id, None, entry.expiryMs, entry.accountId, entry.l2Key, entry.market, None,
        Decimal(0.0, "0"), Decimal(0.0, "0"), false, Some(entry.id), 0))
  }

  function CloseIntent(s: Store, a: CloseArgs, ev: Evidence): Result<Intent, Code> {
    var entry :- Get(s, a.entryId);
    var _ :- Need(entry.kind.Entry? && entry.state.EntryReconciled?, EntryNotReconciled);
    var _ :- Need(NoneOutstanding(s.rows), OutstandingIntent);
    var _ :- Need(forall row <- s.rows :: !row.kind.Close?, CloseAlreadyExists);
    var _ :- RequireWord(s, Exposed);
    var _ :- AssertBinding(entry, ev);
    var _ :- ValidateCommon(ev);
    var _ :- Need(ev.openOrders == [], OpenOrderPresent);
    var position :- AuthoritativePosition(ev);
    var v := ev.closeVector;
    var qty := position.size.value;
    var _ :- Need(Abs(qty * a.price.value) <= MAX_NOTIONAL_USD, NotionalCap);
    var _ :- ValidatePositionBinding(entry, position, ev);
    var side := if position.side == Some(Long) then Sell else Buy;
    var _ :- ValidateNonce(a.nonce);
    var _ :- IdentityFree(s.rows, a.nonce, a.settlementHash);
    var _ :- Need(
      && a.nonce == v.nonce && a.settlementHash == v.externalId && Some(side) == v.side && qty == v.qty.value
      && a.price.value == v.price.value && a.expiryMs == v.expiryMs && v.reduceOnly, CloseVectorMismatch);
    var _ :- ValidateOrderGate(ev, v, qty, a.price.value);
    var payload :- BuildLimitIocOrder(v, ev.serverTimeMs);
    Ok(Intent(a.settlementHash, Close, Prepared, Some(a.nonce), a.settlementHash, Some(payload), a.expiryMs,
        ev.accountId, ev.l2Key, ev.marketName, Some(side), position.size, a.price, true,
        Some(entry.id), 0))
  }

  /** Insert a decided intent; nothing is committed when any check raises. */
  function Prepare(s: Store, decided: Result<Intent, Code>, expected: Word, next: Word): Outcome<Intent> {
    match decided
    case Err(code) => Outcome([], Err(code))
    case Ok(intent) =>
      match InsertTx(s, intent, expected, next)
      case Err(code) => Outcome([], Err(code))
      case Ok(after) => Outcome([after], Ok(intent))
  }

  // ----- Claiming -----

  function ValidateCloseEvidence(s: Store, intent: Intent, ev: Evidence): Result<(), Code> {
    var _ :- AssertBinding(intent, ev);
    var _ :- Need(ev.openOrders == [], OpenOrderPresent);
    var _ :- ValidateOrderGate(ev, ev.closeVector, intent.qty.value, intent.price.value);
    var _ :- ValidateIntentVector(intent, ev);
    var position :- AuthoritativePosition(ev);
    var entry :- GetTarget(s, intent);
    var _ :- ValidatePositionBinding(entry, position, ev);
    var _ :- Need(position.size.value == intent.qty.value, PositionSizeMismatch);
    Need(Abs(position.size.value * intent.price.value) <= MAX_NOTIONAL_USD, NotionalCap)
  }

  /** A cancellation is not sent once agreeing terminal evidence for its target exists. */
  function TargetStillOpen(target: Intent, ev: Evidence): Result<(), Code> {
    var (status, history) := MatchingOrder(target, ev);
    Need(!(status.Some? && status == history && (history.value.status.Filled? || history.value.status.Cancelled?)),
      TerminalEvidenceRequiresReconciliation)
  }

  function ClaimWords(kind: Kind): (Word, Word) {
    match kind
    case Entry => (EntryPrepared, EntryAmbiguous)
    case Cancel => (CancelPrepared, CancelAmbiguous)
    case MassCancel => (CancelPrepared, CancelAmbiguous)
    case Close => (ClosePrepared, CloseAmbiguous)
  }

  function ClaimGate(s: Store, id: string, ev: Evidence): Result<Intent, Code> {
    var intent :- Get(s, id);
    var _ :- Need(intent.state.Prepared?, IntentNotPrepared);
    var _ :- ValidateCommon(ev);
    var _ :- Need(!ev.SomeClockReached(intent.expiryMs), Expired);
    var _ :- RequireWord(s, ClaimWords(intent.kind).0);
    var _ :- AssertBinding(intent, ev);
    match intent.kind
    case Entry =>
      var _ :- ValidateEntry(ev, intent.qty.value, intent.price.value);
      var _ :- ValidateIntentVector(intent, ev);
      Ok(intent)
    case Close =>
      var _ :- ValidateCloseEvidence(s, intent, ev);
      Ok(intent)
    case _ =>
      var target :- GetTarget(s, intent);
      var _ :- TargetStillOpen(target, ev);
      Ok(intent)
  }

  function Claim(s: Store, id: string, ev: Evidence): Outcome<Intent> {
    match ClaimGate(s, id, ev)
    case Err(code) => Outcome([], Err(code))
    case Ok(intent) =>
      match ClaimTx(s, id, ClaimWords(intent.kind).0, ClaimWords(intent.kind).1)
      case Err(code) => Outcome([], Err(code))
      case Ok(after) => Outcome([after], Get(after, id))
  }

  // ----- Reconciling -----

  predicate RouteAllowed(intent: Intent, word: Word) {
    match intent.kind
    case Entry => intent.state.Claimed? && word.EntryAmbiguous?
    case Close => (intent.state.Claimed? && word.CloseAmbiguous?) || (intent.state.CloseReconciled? && word.Exposed?)
    case _ =>
      || (intent.state.Claimed? && word.CancelAmbiguous?)
      || (intent.state.Prepared? && word.CancelPrepared?)
      || (intent.state.ReconciledCancelledNoFill? && word.FlatPendingExpiry?)
      || (intent.state.SupersededNotDispatched? && word.FlatPendingExpiry?)
  }

  predicate StateReconcilable(intent: Intent) {
    || intent.state.Claimed? || intent.state.CloseReconciled? || intent.state.ReconciledCancelledNoFill?
    || (intent.IsCancellation() && (intent.state.Prepared? || intent.state.SupersededNotDispatched?))
  }

  /** Errors that leave the lifecycle word alone. */
  predicate Transient(code: Code) {
    code.IntentNotClaimed? || code.ActionRouteMismatch? || code.CancelUnresolved? || code.CancelFillMissing?
    || code.CloseNotFilled?
  }

  datatype Plan = Plan(commits: seq<Store>, result: ReconciliationResult)

  function Planned(plan: Result<Plan, Code>): Outcome<ReconciliationResult> {
    match plan
    case Err(code) => Outcome([], Err(code))
    case Ok(p) => Outcome(p.commits, Ok(p.result))
  }

  function EntryWord(status: OrderStatus, size: real, minimum: real, step: real): Word {
    if size < minimum && size * 2.0 == minimum then HaltedSubMinimumResidual
    else if !OnGrid(size, step) then HaltedOffGridResidual
    else if size < minimum then HaltedSubMinimumResidual
    else if status.PartiallyFilled? then HaltedPartialFillUncertain
    else Exposed
  }

  function PlanEntry(s: Store, intent: Intent, ev: Evidence): Result<Plan, Code> {
    var _ :- Need(ev.openOrders == [], OrderOpenContradiction);
    var (status, history) := MatchingOrder(intent, ev);
    if status.None? && history.None? && ev.fills == [] && ev.positions == [] then
      Ok(Plan([], ReconciliationResult(s.word, s.word.Complete?, 0.0, 0.0, {}, {})))
    else
      var _ :- Need(history.Some? && status == history, StatusHistoryContradiction);
      var order := history.value;
      var fills :- ValidatedFills(intent, order, ev);
      var _ :- Need((order.status.Filled? || order.status.PartiallyFilled?) && fills != [], OrderFillContradiction);
      var position :- AuthoritativePosition(ev);
      var _ :- ValidatePositionBinding(intent, position, ev);
      var filled := FillQty(fills);
      var _ :- Need(filled == order.filledQty && position.size.value == filled, FillPositionContradiction);
      var word := EntryWord(order.status, position.size.value, ev.market.minOrderSize, ev.market.minOrderSizeChange);
      var after :- SetStatesTx(s, [(intent.id, EntryReconciled)], word);
      Ok(Plan([after], ReconciliationResult(word, false, filled, position.size.value, {intent.externalId}, FillIds(fills))))
  }

  function PlanCancelled(s: Store, intent: Intent, target: Intent, order: Order, fills: seq<Fill>, ev: Evidence): Result<Plan, Code> {
    var _ :- Need(
      && fills == [] && ev.positions == [] && ev.openOrders == [] && order.filledQty == 0.0
      && order.cancelledQty == target.qty.value, CancelNoFillContradiction);
    if intent.Outstanding() then
      var state := if intent.state.Prepared? then SupersededNotDispatched else ReconciledCancelledNoFill;
      var after :- SetStatesTx(s, [(intent.id, state), (target.id, EntryCancelledNoFill)], FlatPendingExpiry);
      Ok(Plan([after], ReconciliationResult(FlatPendingExpiry, false, 0.0, 0.0, {target.externalId}, {})))
    else
      var _ :- Need(
        && |ev.orderHistory| == 1 && ev.orderHistory[0].externalId == target.externalId
        && ev.orderStatus.Some? && ev.orderStatus.value.externalId == target.externalId, FinalHistoryMismatch);
      var safe := ev.EveryClockPast(MaxExpiry(s.rows)) && ev.fills == [] && NoneOutstanding(s.rows);
      if safe then
        var after :- SetStatesTx(s, [], Complete);
        Ok(Plan([after], ReconciliationResult(Complete, true, 0.0, 0.0, {target.externalId}, {})))
      else
        Ok(Plan([], ReconciliationResult(FlatPendingExpiry, false, 0.0, 0.0, {target.externalId}, {})))
  }

  function PlanCancel(s: Store, intent: Intent, ev: Evidence): Result<Plan, Code> {
    var target :- GetTarget(s, intent);
    var (status, history) := MatchingOrder(target, ev);
    var _ :- Need(history.Some? && status == history, CancelUnresolved);
    var order := history.value;
    var fills :- ValidatedFills(target, order, ev);
    if order.status.Cancelled? then PlanCancelled(s, intent, target, order, fills, ev)
    else
      var _ :- Need(order.status.Filled?, CancelUnresolved);
      var _ :- Need(fills != [], CancelFillMissing);
      var position :- AuthoritativePosition(ev);
      var _ :- ValidatePositionBinding(target, position, ev);
      var filled := FillQty(fills);
      var _ :- Need(filled == order.filledQty == position.size.value && filled == target.qty.value, CancelFillPositionContradiction);
      var state := if intent.state.Prepared? then SupersededNotDispatched else ReconciledNoCancelEffect;
      var after :- SetStatesTx(s, [(intent.id, state), (target.id, EntryReconciled)], Exposed);
      Ok(Plan([after],
          ReconciliationResult(Exposed, false, filled, position.size.value, {target.externalId}, FillIds(fills))))
  }

  /** Each persisted order is filled in full by its own fills; the ids of all of those. */
  function FinalFillIds(rows: seq<Intent>, ev: Evidence): Result<set<int>, Code> {
    if rows == [] then Ok({})
    else if !rows[0].IsOrder() then FinalFillIds(rows[1..], ev)
    else
      var order := LastOrder(ev.orderHistory, rows[0].externalId);
      var _ :- Need(order.Some?, FinalHistoryMismatch);
      var fills :- ValidatedFills(rows[0], order.value, ev);
      var _ :- Need(order.value.status.Filled? && fills != [], FinalFillMismatch);
      var _ :- Need(FillQty(fills) == order.value.filledQty == rows[0].qty.value, FinalFillMismatch);
      var rest :- FinalFillIds(rows[1..], ev);
      Ok(FillIds(fills) + rest)
  }

  function HistoryIds(rows: seq<Order>): set<string> {
    set row <- rows :: row.externalId
  }

  /** Orders are visited in table order; the source visits them in set order. */
  function FinalIdentities(rows: seq<Intent>, ev: Evidence): Result<(set<string>, set<int>), Code> {
    var _ :- Need(HistoryIds(ev.orderHistory) == OrderIds(rows), FinalHistoryMismatch);
    var ids :- FinalFillIds(rows, ev);
    var _ :- Need(ids == FillIds(ev.fills), UnreconciledFill);
    Ok((OrderIds(rows), ids))
  }

  /** The close and its entry are filled, equal, flat, and account for every fill there is. */
  function CloseProof(s: Store, intent: Intent, order: Order, ev: Evidence): Result<(set<string>, set<int>), Code> {
    var fills :- ValidatedFills(intent, order, ev);
    var _ :- Need(fills != [], CloseFillMissing);
    var closed := FillQty(fills);
    var _ :- Need(closed == order.filledQty == intent.qty.value, CloseFillMismatch);
    var target :- GetTarget(s, intent);
    var entryOrder := FirstOrder(ev.orderHistory, target.externalId);
    var _ :- Need(entryOrder.Some?, EntryHistoryMissing);
    var entryFills :- ValidatedFills(target, entryOrder.value, ev);
    var entered := FillQty(entryFills);
    var _ :- Need(entered == entryOrder.value.filledQty && entered == target.qty.value && entered == closed, EntryCloseFillMismatch);
    var _ :- Need(ev.positions == [] && (ev.mode.RestFallback? || ev.streamPositions == []), ClosePositionNotFlat);
    FinalIdentities(s.rows, ev)
  }

  predicate CloseIsFinal(rows: seq<Intent>, ev: Evidence) {
    && ev.EveryClockPast(MaxExpiry(rows))
    && ((ev.connected && ev.gapFree) || ev.mode.RestFallback?)
    && ev.Fresh()
    && NoneOutstanding(rows)
  }

  function PlanClose(s: Store, intent: Intent, ev: Evidence): Result<Plan, Code> {
    var _ :- Need(ev.openOrders == [], CloseOrderOpenContradiction);
    var (status, history) := MatchingOrder(intent, ev);
    var _ :- Need(history.Some? && status == history, CloseStatusHistoryContradiction);
    var order := history.value;
    if order.status.Rejected? then
      var after :- SetStatesTx(s, [(intent.id, CloseRejected)], HaltedCloseRejected);
      Ok(Plan([after], ReconciliationResult(HaltedCloseRejected, false, 0.0, 0.0, {}, {})))
    else
      var _ :- Need(order.status.Filled?, CloseNotFilled);
      var ids :- CloseProof(s, intent, order, ev);
      var flat :- SetStatesTx(s, [(intent.id, CloseReconciled)], Exposed);
      if CloseIsFinal(flat.rows, ev) then
        var done :- SetStatesTx(flat, [], Complete);
        Ok(Plan([flat, done], ReconciliationResult(Complete, true, 0.0, 0.0, ids.0, ids.1)))
      else
        Ok(Plan([flat], ReconciliationResult(Exposed, false, 0.0, 0.0, ids.0, ids.1)))
  }

  function PlanFor(s: Store, intent: Intent, ev: Evidence): Result<Plan, Code> {
    match intent.kind
    case Entry => PlanEntry(s, intent, ev)
    case Close => PlanClose(s, intent, ev)
    case _ => PlanCancel(s, intent, ev)
  }

  /** The guarded part, before the handler that may halt the lifecycle. */
  function Attempt(s: Store, intent: Intent, ev: Evidence): Outcome<ReconciliationResult> {
    if !StateReconcilable(intent) then Outcome([], Err(IntentNotClaimed))
    else if !RouteAllowed(intent, s.word) then Outcome([], Err(ActionRouteMismatch))
    else
      match AssertBinding(intent, ev)
      case Err(code) => Outcome([], Err(code))
      case Ok(_) =>
        if !AllFillsBindPersistedOrders(s.rows, ev) then
          Outcome([s.(word := HaltedUnexplainedFill)], Err(UnexplainedFill))
        else
          Planned(PlanFor(s, intent, ev))
  }

  function Reconcile(s: Store, id: string, ev: Evidence): Outcome<ReconciliationResult> {
    match Get(s, id)
    case Err(code) => Outcome([], Err(code))
    case Ok(intent) =>
      match ValidateCommon(ev)
      case Err(code) => Outcome([], Err(code))
      case Ok(_) =>
        if s.word.IsHalted() then Outcome([], Err(LifecycleIsHalted))
        else
          var attempt := Attempt(s, intent, ev);
          var reached := attempt.Final(s);
          if attempt.result.Err? && !Transient(attempt.result.error) && !reached.word.IsHalted() then
            Outcome(attempt.commits + [reached.(word := HaltedReconciliationContradiction)], attempt.result)
          else attempt
  }

  // ----- Operations and runs -----

  datatype Op =
    | PrepareOrderOp(order: OrderArgs, ev: Evidence)
    | PrepareCancellationOp(entryId: string, kind: Kind, ev: Evidence)
    | PrepareCloseOp(close: CloseArgs, ev: Evidence)
    | ClaimOp(id: string, ev: Evidence)
    | ReconcileOp(id: string, ev: Evidence)

  function Commits(s: Store, op: Op): seq<Store> {
    match op
    case PrepareOrderOp(a, ev) => Prepare(s, EntryIntent(s, a, ev), Flat, EntryPrepared).commits
    case PrepareCancellationOp(entryId, kind, ev) =>
      Prepare(s, CancellationIntent(s, entryId, kind, ev), EntryAmbiguous, CancelPrepared).commits
    case PrepareCloseOp(a, ev) => Prepare(s, CloseIntent(s, a, ev), Exposed, ClosePrepared).commits
    case ClaimOp(id, ev) => Claim(s, id, ev).commits
    case ReconcileOp(id, ev) => Reconcile(s, id, ev).commits
  }

  /** One operation, stopped by a crash once `survived` of its transactions are durable. */
  datatype Step = Step(op: Op, survived: nat)

  function After(s: Store, step: Step): Store {
    var commits := Commits(s, step.op);
    if step.survived == 0 || commits == [] then s
    else if step.survived < |commits| then commits[step.survived - 1]
    else commits[|commits| - 1]
  }

  const NEW_STORE := Store([], Flat)

  /** The tables found on disk along a run that started from an empty file. */
  ghost predicate IsRun(trace: seq<Store>, steps: seq<Step>) {
    && |trace| == |steps| + 1
    && trace[0] == NEW_STORE
    && forall i | 0 <= i < |steps| :: trace[i + 1] == After(trace[i], steps[i])
  }
}

/**
 The durable store and the lifecycle that drives it, in place. Every method is proved to do
 exactly what LifecycleSpec says, transaction by transaction: `log` records each committed table.
 */
module ExtendedLifecycle {
  import opened Wrappers
  import opened VenueEvidence
  import opened Intents
  import opened LifecycleSpec

  class IntentStore {
    var rows: seq<Intent>
    var word: Word
    ghost var log: seq<Store>

    function View(): Store
      reads this
    {
      Store(rows, word)
    }

    constructor ()
      ensures View() == NEW_STORE && log == []
    {
      rows, word, log := [], Flat, [];
    }

    method Insert(intent: Intent, expected: Word, next: Word) returns (r: Result<(), Code>)
      modifies this
      ensures match InsertTx(old(View()), intent, expected, next)
        case Ok(after) => r == Ok(()) && View() == after && log == old(log) + [after]
        case Err(code) => r == Err(code) && unchanged(this)
    {
      if word != expected { return Err(LifecycleStateMismatch); }
      if intent.nonce.Some? && exists row <- rows :: row.nonce == intent.nonce { return Err(NonceReuse); }
      if exists row <- rows :: row.id == intent.id || row.externalId == intent.externalId { return Err(ExternalIdReuse); }
      rows, word := rows + [intent], next;
      log := log + [View()];
      return Ok(());
    }

    method Claim(id: string, expected: Word, next: Word) returns (r: Result<(), Code>)
      modifies this
      ensures match ClaimTx(old(View()), id, expected, next)
        case Ok(after) => r == Ok(()) && View() == after && log == old(log) + [after]
        case Err(code) => r == Err(code) && unchanged(this)
    {
      if word != expected { return Err(LifecycleStateMismatch); }
      var at := IndexOf(rows, id);
      if at.None? || !rows[at.value].state.Prepared? { return Err(IntentNotPrepared); }
      var row := rows[at.value];
      rows, word := rows[at.value := row.(state := Claimed, dispatchCount := row.dispatchCount + 1)], next;
      log := log + [View()];
      return Ok(());
    }

    /** All states and the word in one transaction, or nothing when a row is missing. */
    method SetStates(states: seq<(string, IntentState)>, next: Word) returns (r: Result<(), Code>)
      modifies this
      ensures match SetStatesTx(old(View()), states, next)
        case Ok(after) => r == Ok(()) && View() == after && log == old(log) + [after]
        case Err(code) => r == Err(code) && unchanged(this)
    {
      var updated := rows;
      for k := 0 to |states|
        invariant unchanged(this)
        invariant WithStates(rows, states) == WithStates(updated, states[k..])
      {
        var at := IndexOf(updated, states[k].0);
        if at.None? { return Err(IntentNotFound); }
        updated := updated[at.value := updated[at.value].(state := states[k].1)];
      }
      rows, word := updated, next;
      log := log + [View()];
      return Ok(());
    }
  }

  class ExtendedLifecycle {
    const store: IntentStore

    constructor (store: IntentStore)
      ensures this.store == store
    {
      this.store := store;
    }

    // ----- Preparing and claiming -----

    method PrepareOrder(a: OrderArgs, ev: Evidence) returns (r: Result<Intent, Code>)
      modifies store
      ensures var o := Prepare(old(store.View()), EntryIntent(old(store.View()), a, ev), Flat, EntryPrepared);
        r == o.result && store.View() == o.Final(old(store.View())) && store.log == old(store.log) + o.commits
    {
      var intent :- EntryIntent(store.View(), a, ev);
      hide EntryIntent;
      var _ :- store.Insert(intent, Flat, EntryPrepared);
      return Ok(intent);
    }

    method PrepareCancellation(entryId: string, kind: Kind, ev: Evidence) returns (r: Result<Intent, Code>)
      modifies store
      ensures var o := Prepare(old(store.View()), CancellationIntent(old(store.View()), entryId, kind, ev),
          EntryAmbiguous, CancelPrepared);
        r == o.result && store.View() == o.Final(old(store.View())) && store.log == old(store.log) + o.commits
    {
      var intent :- CancellationIntent(store.View(), entryId, kind, ev);
      hide CancellationIntent;
      var _ :- store.Insert(intent, EntryAmbiguous, CancelPrepared);
      return Ok(intent);
    }

    method PrepareClose(a: CloseArgs, ev: Evidence) returns (r: Result<Intent, Code>)
      modifies store
      ensures var o := Prepare(old(store.View()), CloseIntent(old(store.View()), a, ev), Exposed, ClosePrepared);
        r == o.result && store.View() == o.Final(old(store.View())) && store.log == old(store.log) + o.commits
    {
      var intent :- CloseIntent(store.View(), a, ev);
      hide CloseIntent;
      var _ :- store.Insert(intent, Exposed, ClosePrepared);
      return Ok(intent);
    }

    method ClaimForDispatch(id: string, ev: Evidence) returns (r: Result<Intent, Code>)
      modifies store
      ensures var o := LifecycleSpec.Claim(old(store.View()), id, ev);
        r == o.result && store.View() == o.Final(old(store.View())) && store.log == old(store.log) + o.commits
    {
      var intent :- ClaimGate(store.View(), id, ev);
      hide ClaimGate;
      var (expected, next) := ClaimWords(intent.kind);
      var _ :- store.Claim(id, expected, next);
      r := Get(store.View(), id);
    }

    // ----- Loops of reconciliation -----

    /** Check the fills of one order in the order they arrive, keeping running totals. */
    method CheckFills(intent: Intent, order: Order, ev: Evidence) returns (r: Result<seq<Fill>, Code>)
      ensures r == ValidatedFills(intent, order, ev)
    {
      hide FillBinds, FillArithmetic, OrderArithmetic, MatchingFills;
      if !OrderBinds(intent, order) { return Err(OrderBindingMismatch); }
      var fills := MatchingFills(ev.fills, order.id);
      var rate := intent.payload.value.fee.value;
      var totalFee, totalQty, totalValue := 0.0, 0.0, 0.0;
      for k := 0 to |fills|
        invariant FillsError(intent, order, rate, fills) == FillsError(intent, order, rate, fills[k..])
        invariant totalFee + FillFee(fills[k..]) == FillFee(fills)
        invariant totalQty + FillQty(fills[k..]) == FillQty(fills)
        invariant totalValue + FillValue(fills[k..]) == FillValue(fills)
      {
        var f := fills[k];
        assert fills[k..][1..] == fills[k + 1..];
        if !FillBinds(intent, order, f) { return Err(FillBindingMismatch); }
        if !FillArithmetic(intent, rate, f) { return Err(FillArithmeticMismatch); }
        totalFee, totalQty, totalValue := totalFee + f.fee, totalQty + f.qty, totalValue + f.value;
      }
      if order.payedFee != totalFee { return Err(FillArithmeticMismatch); }
      if !OrderArithmetic(intent, order, fills != [], totalQty, totalValue) { return Err(OrderArithmeticMismatch); }
      return Ok(fills);
    }

    /** Collect venue ids into a dictionary, refusing a contradiction, then look every fill up. */
    method FillsBindPersisted(ev: Evidence) returns (ok: bool)
      ensures ok == AllFillsBindPersistedOrders(store.rows, ev)
    {
      var orders := ObservedOrders(ev);
      var byId: map<int, string> := map[];
      for k := 0 to |orders|
        invariant forall j | 0 <= j < k :: orders[j].id in byId && byId[orders[j].id] == orders[j].externalId
        invariant forall id <- byId :: exists j | 0 <= j < k :: orders[j].id == id
      {
        var order := orders[k];
        if order.id in byId && byId[order.id] != order.externalId {
          var j :| 0 <= j < k && orders[j].id == order.id;
          assert orders[j] in orders && orders[j].externalId != order.externalId;
          return false;
        }
        byId := byId[order.id := order.externalId];
      }
      var persisted := OrderIds(store.rows);
      ok := forall f <- ev.fills :: f.orderId in byId && byId[f.orderId] in persisted && f.externalId == byId[f.orderId];
      forall f <- ev.fills
        ensures FillBindsPersisted(orders, persisted, f)
          <==> f.orderId in byId && byId[f.orderId] in persisted && f.externalId == byId[f.orderId]
      {
        if f.orderId in byId {
          var j :| 0 <= j < |orders| && orders[j].id == f.orderId;
          assert orders[j] in orders;
        }
      }
    }

    /** Visit the persisted orders and gather the ids of their fills. */
    method CheckFinalIdentities(ev: Evidence) returns (r: Result<(set<string>, set<int>), Code>)
      ensures r == FinalIdentities(store.rows, ev)
    {
      if HistoryIds(ev.orderHistory) != OrderIds(store.rows) { return Err(FinalHistoryMismatch); }
      var rows := store.rows;
      var ids: set<int> := {};
      for k := 0 to |rows|
        invariant FinalFillIds(rows, ev).Ok? <==> FinalFillIds(rows[k..], ev).Ok?
        invariant FinalFillIds(rows, ev).Err? ==> FinalFillIds(rows, ev) == FinalFillIds(rows[k..], ev)
        invariant FinalFillIds(rows, ev).Ok? ==> FinalFillIds(rows, ev).value == ids + FinalFillIds(rows[k..], ev).value
      {
        assert rows[k..][1..] == rows[k + 1..];
        if rows[k].IsOrder() {
          var order := LastOrder(ev.orderHistory, rows[k].externalId);
          if order.None? { return Err(FinalHistoryMismatch); }
          var fills :- CheckFills(rows[k], order.value, ev);
          if !order.value.status.Filled? || fills == [] { return Err(FinalFillMismatch); }
          if !(FillQty(fills) == order.value.filledQty == rows[k].qty.value) { return Err(FinalFillMismatch); }
          ids := ids + FillIds(fills);
        }
      }
      if ids != FillIds(ev.fills) { return Err(UnreconciledFill); }
      return Ok((OrderIds(store.rows), ids));
    }

    // ----- Reconciling -----

    method ReconcileEntry(intent: Intent, ev: Evidence) returns (r: Result<ReconciliationResult, Code>)
      modifies store
      ensures var o := Planned(PlanEntry(old(store.View()), intent, ev));
        r == o.result && store.View() == o.Final(old(store.View())) && store.log == old(store.log) + o.commits
    {
      if ev.openOrders != [] { return Err(OrderOpenContradiction); }
      var (status, history) := MatchingOrder(intent, ev);
      if status.None? && history.None? && ev.fills == [] && ev.positions == [] {
        return Ok(ReconciliationResult(store.word, store.word.Complete?, 0.0, 0.0, {}, {}));
      }
      if history.None? || status != history { return Err(StatusHistoryContradiction); }
      var order := history.value;
      var fills :- CheckFills(intent, order, ev);
      var filled := FillQty(fills);
      if !(order.status.Filled? || order.status.PartiallyFilled?) || fills == [] { return Err(OrderFillContradiction); }
      var position :- AuthoritativePosition(ev);
      var _ :- ValidatePositionBinding(intent, position, ev);
      if filled != order.filledQty || position.size.value != filled { return Err(FillPositionContradiction); }
      var next := EntryWord(order.status, position.size.value, ev.market.minOrderSize, ev.market.minOrderSizeChange);
      hide ValidatedFills, ValidatePositionBinding, AuthoritativePosition, EntryWord, WithStates;
      var _ :- store.SetStates([(intent.id, EntryReconciled)], next);
      return Ok(ReconciliationResult(next, false, filled, position.size.value, {intent.externalId}, FillIds(fills)));
    }

    method ReconcileCancel(intent: Intent, ev: Evidence) returns (r: Result<ReconciliationResult, Code>)
      modifies store
      ensures var o := Planned(PlanCancel(old(store.View()), intent, ev));
        r == o.result && store.View() == o.Final(old(store.View())) && store.log == old(store.log) + o.commits
    {
      hide WithStates, ValidatePositionBinding, AuthoritativePosition, MaxExpiry;
      var target :- GetTarget(store.View(), intent);
      var unsent := intent.state.Prepared?;
      var (status, history) := MatchingOrder(target, ev);
      if history.None? || status != history { return Err(CancelUnresolved); }
      var order := history.value;
      var fills :- CheckFills(target, order, ev);
      hide ValidatedFills, GetTarget;
      if order.status.Cancelled? {
        if fills != [] || ev.positions != [] || ev.openOrders != [] || order.filledQty != 0.0
          || order.cancelledQty != target.qty.value
        { return Err(CancelNoFillContradiction); }
        var ids := {target.externalId};
        if intent.Outstanding() {
          var state := if unsent then SupersededNotDispatched else ReconciledCancelledNoFill;
          var _ :- store.SetStates([(intent.id, state), (target.id, EntryCancelledNoFill)], FlatPendingExpiry);
          return Ok(ReconciliationResult(FlatPendingExpiry, false, 0.0, 0.0, ids, {}));
        }
        if |ev.orderHistory| != 1 || ev.orderHistory[0].externalId != target.externalId
          || ev.orderStatus.None? || ev.orderStatus.value.externalId != target.externalId
        { return Err(FinalHistoryMismatch); }
        if ev.EveryClockPast(MaxExpiry(store.rows)) && ev.fills == [] && NoneOutstanding(store.rows) {
          var _ :- store.SetStates([], Complete);
          return Ok(ReconciliationResult(Complete, true, 0.0, 0.0, ids, {}));
        }
        return Ok(ReconciliationResult(FlatPendingExpiry, false, 0.0, 0.0, ids, {}));
      }
      if !order.status.Filled? { return Err(CancelUnresolved); }
      if fills == [] { return Err(CancelFillMissing); }
      var position :- AuthoritativePosition(ev);
      var _ :- ValidatePositionBinding(target, position, ev);
      var filled := FillQty(fills);
      if filled != order.filledQty || filled != position.size.value || filled != target.qty.value {
        return Err(CancelFillPositionContradiction);
      }
      var state := if unsent then SupersededNotDispatched else ReconciledNoCancelEffect;
      var _ :- store.SetStates([(intent.id, state), (target.id, EntryReconciled)], Exposed);
      return Ok(ReconciliationResult(Exposed, false, filled, position.size.value, {target.externalId}, FillIds(fills)));
    }

    method ProveClose(intent: Intent, order: Order, ev: Evidence) returns (r: Result<(set<string>, set<int>), Code>)
      ensures r == CloseProof(store.View(), intent, order, ev)
    {
      var fills :- CheckFills(intent, order, ev);
      if fills == [] { return Err(CloseFillMissing); }
      var closed := FillQty(fills);
      if closed != order.filledQty || closed != intent.qty.value { return Err(CloseFillMismatch); }
      var target :- GetTarget(store.View(), intent);
      var entryOrder := FirstOrder(ev.orderHistory, target.externalId);
      if entryOrder.None? { return Err(EntryHistoryMissing); }
      var entryFills :- CheckFills(target, entryOrder.value, ev);
      var entered := FillQty(entryFills);
      if entered != entryOrder.value.filledQty || entered != target.qty.value || entered != closed {
        return Err(EntryCloseFillMismatch);
      }
      if ev.positions != [] || (!ev.mode.RestFallback? && ev.streamPositions != []) { return Err(ClosePositionNotFlat); }
      r := CheckFinalIdentities(ev);
    }

    /** Two transactions: the close is reconciled first, and completion is decided on the new table. */
    method ReconcileClose(intent: Intent, ev: Evidence) returns (r: Result<ReconciliationResult, Code>)
      modifies store
      ensures var o := Planned(PlanClose(old(store.View()), intent, ev));
        r == o.result && store.View() == o.Final(old(store.View())) && store.log == old(store.log) + o.commits
    {
      hide WithStates, CloseProof, CloseIsFinal;
      if ev.openOrders != [] { return Err(CloseOrderOpenContradiction); }
      var (status, history) := MatchingOrder(intent, ev);
      if history.None? || status != history { return Err(CloseStatusHistoryContradiction); }
      var order := history.value;
      if order.status.Rejected? {
        var _ :- store.SetStates([(intent.id, CloseRejected)], HaltedCloseRejected);
        return Ok(ReconciliationResult(HaltedCloseRejected, false, 0.0, 0.0, {}, {}));
      }
      if !order.status.Filled? { return Err(CloseNotFilled); }
      var ids :- ProveClose(intent, order, ev);
      var _ :- store.SetStates([(intent.id, CloseReconciled)], Exposed);
      var safe := CloseIsFinal(store.rows, ev);
      if safe {
        NothingToSet(store.View());
        var _ := store.SetStates([], Complete);
      }
      return Ok(ReconciliationResult(if safe then Complete else Exposed, safe, 0.0, 0.0, ids.0, ids.1));
    }

    lemma NothingToSet(s: Store)
      ensures SetStatesTx(s, [], Complete) == Ok(s.(word := Complete))
    {
    }

    method Try(intent: Intent, ev: Evidence) returns (r: Result<ReconciliationResult, Code>)
      modifies store
      ensures var o := Attempt(old(store.View()), intent, ev);
        r == o.result && store.View() == o.Final(old(store.View())) && store.log == old(store.log) + o.commits
    {
      hide PlanEntry, PlanCancel, PlanClose, AllFillsBindPersistedOrders;
      if !StateReconcilable(intent) { return Err(IntentNotClaimed); }
      if !RouteAllowed(intent, store.word) { return Err(ActionRouteMismatch); }
      var _ :- AssertBinding(intent, ev);
      var bound := FillsBindPersisted(ev);
      if !bound {
        UnexplainedIsSettable(store.View());
        var _ := store.SetStates([], HaltedUnexplainedFill);
        return Err(UnexplainedFill);
      }
      match intent.kind
      case Entry => r := ReconcileEntry(intent, ev);
      case Close => r := ReconcileClose(intent, ev);
      case _ => r := ReconcileCancel(intent, ev);
    }

    lemma UnexplainedIsSettable(s: Store)
      ensures SetStatesTx(s, [], HaltedUnexplainedFill) == Ok(s.(word := HaltedUnexplainedFill))
    {
    }

    /** The guarded attempt, and the handler that halts on any error that is not transient. */
    method Reconcile(id: string, ev: Evidence) returns (r: Result<ReconciliationResult, Code>)
      modifies store
      ensures var o := LifecycleSpec.Reconcile(old(store.View()), id, ev);
        r == o.result && store.View() == o.Final(old(store.View())) && store.log == old(store.log) + o.commits
    {
      hide Attempt;
      var intent :- Get(store.View(), id);
      var _ :- ValidateCommon(ev);
      if store.word.IsHalted() { return Err(LifecycleIsHalted); }
      r := Try(intent, ev);
      if r.Err? && !Transient(r.error) && !store.word.IsHalted() {
        var _ := store.SetStates([], HaltedReconciliationContradiction);
      }
    }
  }
}
